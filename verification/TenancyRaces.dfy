/** What the store methods of Tenancy really run: a transaction for creating or deleting a
    workspace and for signing up, but single statements for an invite with its quota
    (internal/server/quota.go), for a role change or a removal (internal/store/memberships.go)
    and for the rest of a login (internal/store/sqlite.go). Here each of them is one step and
    any number of requests are under way at once: when a write breaks the seat limit, the
    last-admin rule or a default workspace, exactly. */
module TenancyRaces {
  import opened Options
  import opened Tenancy

  /** What a request writes once its check has passed. */
  datatype Write =
    | PutInvite(ws: Id, email: Email, role: Role)
    | Assign(ws: Id, user: Id, role: Role)
    | Drop(ws: Id, user: Id)

  /** Whom a login is for, and whether the row it read had no default workspace. */
  datatype Session = Session(email: Email, user: Id, homeless: bool)

  /** How far a request has come: handleInvite after it has counted the members, a role change or
      removal after it has read that the member is an admin, and either after its check; a login
      that found no user, one that knows its user, one with invites read and not yet joined, one
      about to create a default workspace and one about to record it. */
  datatype Request =
    | CountedMembers(w: Write, members: nat)
    | ReadAdmin(w: Write)
    | Checked(w: Write)
    | Absent(email: Email)
    | Present(session: Session)
    | Joining(session: Session, todo: map<Id, Role>)
    | Homeless(session: Session)
    | Housed(session: Session, home: Id)

  datatype Race = Race(store: State, requests: map<nat, Request>)

  const START := Race(INITIAL, map[])

  datatype Move =
    | NewWorkspace(user: Id, ws: Id)
    | DropWorkspace(ws: Id)
    | CountMembers(n: nat, w: Write)
    | CountInvites(n: nat)
    | ReadRole(n: nat, w: Write)
    | CountAdmins(n: nat)
    | Perform(n: nat)
    | FindUser(n: nat, email: Email)
    | SignUp(n: nat, user: Id, ws: Id)
    | ReadInvites(n: nat)
    | Join(n: nat, ws: Id)
    | ClearInvites(n: nat)
    | NewHome(n: nat, ws: Id)
    | SetHome(n: nat)

  function Begun(r: Race, n: nat, q: Request): Race {
    r.(requests := r.requests[n := q])
  }

  function Ended(r: Race, n: nat): Race {
    r.(requests := r.requests - {n})
  }

  /** The write, as the database does it: an invite needs its workspace, an UPDATE or DELETE of
      a membership that is gone changes nothing. */
  function Written(s: State, w: Write): State {
    match w
    case PutInvite(ws, e, role) => if ws in s.workspaces then WithInvite(s, ws, e, role) else s
    case Assign(ws, user, role) => if (ws, user) in s.members then WithRole(s, ws, user, role) else s
    case Drop(ws, user) => WithoutMember(s, ws, user)
  }

  predicate Demotes(w: Write) {
    w.Drop? || (w.Assign? && w.role != Admin)
  }

  /** SELECT workspace_id, role FROM invites WHERE email = ?. */
  function InvitesFor(s: State, e: Email): map<Id, Role> {
    map ws | ws in (set k | k in s.invites && k.1 == e :: k.0) :: s.invites[(ws, e)]
  }

  /** The membership INSERT of acceptInvites: a membership that is there is kept. */
  function WithJoined(s: State, ws: Id, user: Id, role: Role): State {
    if (ws, user) in s.members then s else WithRole(s, ws, user, role)
  }

  function WithoutInvites(s: State, e: Email): State {
    s.(invites := map k | k in s.invites && k.1 != e :: s.invites[k])
  }

  /** After acceptInvites: a user without a default workspace is given one. */
  function InvitesAccepted(r: Race, n: nat, q: Session): Race {
    if q.homeless then Begun(r, n, Homeless(q)) else Ended(r, n)
  }

  function Checks(limit: Id -> int, r: Race, m: Move): Race
    requires m.CountMembers? || m.CountInvites? || m.ReadRole? || m.CountAdmins?
    ensures Checks(limit, r, m).store == r.store
  {
    match m
    case CountMembers(n, w) =>
      if n in r.requests || !w.PutInvite? || w.ws !in r.store.workspaces then r
      else if limit(w.ws) < 0 then Begun(r, n, Checked(w))
      else Begun(r, n, CountedMembers(w, |MembersOf(r.store, w.ws)|))
    case CountInvites(n) =>
      if n !in r.requests || !r.requests[n].CountedMembers? then r
      else
        var q := r.requests[n];
        if q.members + |InvitesOf(r.store, q.w.ws)| >= limit(q.w.ws) then Ended(r, n) else Begun(r, n, Checked(q.w))
    case ReadRole(n, w) =>
      if n in r.requests || w.PutInvite? || (w.ws, w.user) !in r.store.members then r
      else if r.store.members[(w.ws, w.user)] == Admin && Demotes(w) then Begun(r, n, ReadAdmin(w))
      else Begun(r, n, Checked(w))
    case CountAdmins(n) =>
      if n !in r.requests || !r.requests[n].ReadAdmin? then r
      else if |AdminsOf(r.store, r.requests[n].w.ws)| <= 1 then Ended(r, n)
      else Begun(r, n, Checked(r.requests[n].w))
  }

  /** A statement of a login. The workspace of an invite that was read may be gone and the email
      may have signed up meanwhile: the INSERT fails and the request ends. */
  function LogsIn(r: Race, m: Move): Race
    requires m.FindUser? || m.SignUp? || m.ReadInvites? || m.Join? || m.ClearInvites? || m.NewHome? || m.SetHome?
  {
    var s := r.store;
    match m
    case FindUser(n, e) =>
      if n in r.requests then r
      else if e in s.users then Begun(r, n, Present(Session(e, s.users[e].id, s.users[e].home == None)))
      else Begun(r, n, Absent(e))
    case SignUp(n, user, ws) =>
      if n !in r.requests || !r.requests[n].Absent? || ws in s.used || user in s.used || ws == user then r
      else if r.requests[n].email in s.users then Ended(r, n)
      else
        var e := r.requests[n].email;
        Race(WithUser(s, e, user, ws), r.requests[n := Present(Session(e, user, false))])
    case ReadInvites(n) =>
      if n !in r.requests || !r.requests[n].Present? then r
      else
        var q := r.requests[n].session;
        var todo := InvitesFor(s, q.email);
        if todo == map[] then InvitesAccepted(r, n, q) else Begun(r, n, Joining(q, todo))
    case Join(n, ws) =>
      if n !in r.requests || !r.requests[n].Joining? || ws !in r.requests[n].todo then r
      else if ws !in s.workspaces then Ended(r, n)
      else
        var q := r.requests[n];
        Race(WithJoined(s, ws, q.session.user, q.todo[ws]), r.requests[n := Joining(q.session, q.todo - {ws})])
    case ClearInvites(n) =>
      if n !in r.requests || !r.requests[n].Joining? || r.requests[n].todo != map[] then r
      else
        var q := r.requests[n].session;
        InvitesAccepted(r.(store := WithoutInvites(s, q.email)), n, q)
    case NewHome(n, ws) =>
      if n !in r.requests || !r.requests[n].Homeless? || ws in s.used then r
      else
        var q := r.requests[n].session;
        Race(WithWorkspace(s, ws, q.user), r.requests[n := Housed(q, ws)])
    case SetHome(n) =>
      if n !in r.requests || !r.requests[n].Housed? || r.requests[n].session.email !in s.users then r
      else
        var q := r.requests[n];
        Race(WithHome(s, q.session.email, Some(q.home)), r.requests - {n})
  }

  function Moved(limit: Id -> int, r: Race, m: Move): Race {
    match m
    case NewWorkspace(user, ws) => r.(store := Next(limit, r.store, Create(user, ws)))
    case DropWorkspace(ws) => r.(store := Next(limit, r.store, Delete(ws)))
    case Perform(n) =>
      if n !in r.requests || !r.requests[n].Checked? then r
      else Race(Written(r.store, r.requests[n].w), r.requests - {n})
    case CountMembers(_, _) => Checks(limit, r, m)
    case CountInvites(_) => Checks(limit, r, m)
    case ReadRole(_, _) => Checks(limit, r, m)
    case CountAdmins(_) => Checks(limit, r, m)
    case _ => LogsIn(r, m)
  }

  function After(limit: Id -> int, r: Race, moves: seq<Move>): Race {
    if moves == [] then r else Moved(limit, After(limit, r, moves[..|moves| - 1]), moves[|moves| - 1])
  }

  /** The race after a run from the empty store. */
  function Raced(limit: Id -> int, moves: seq<Move>): Race {
    After(limit, START, moves)
  }

  /** The write that a move performs, if its request has passed its check. */
  predicate Writes(r: Race, m: Move) {
    m.Perform? && m.n in r.requests && r.requests[m.n].Checked?
  }

  /** A membership INSERT for an invite that the login read. */
  predicate Joins(r: Race, m: Move) {
    m.Join? && m.n in r.requests && r.requests[m.n].Joining? && m.ws in r.requests[m.n].todo
  }

  // ---- What every move keeps -------------------------------------------------------------

  predicate HasSession(q: Request) {
    q.Present? || q.Joining? || q.Homeless? || q.Housed?
  }

  /** The user of a login is the one its email still belongs to. */
  predicate Placed(s: State, q: Session) {
    q.email in s.users && s.users[q.email].id == q.user
  }

  ghost predicate Sound(r: Race) {
    && Rows(r.store)
    && forall n :: n in r.requests && HasSession(r.requests[n]) ==> Placed(r.store, r.requests[n].session)
  }

  ghost predicate UsersStay(s: State, t: State) {
    forall e :: e in s.users ==> e in t.users && t.users[e].id == s.users[e].id
  }

  lemma MovedKeepsUsers(limit: Id -> int, r: Race, m: Move)
    ensures UsersStay(r.store, Moved(limit, r, m).store)
  {
  }

  lemma WrittenKeepsRows(s: State, w: Write)
    requires Rows(s)
    ensures Rows(Written(s, w))
  {
    KnownStays(s, Written(s, w));
  }

  lemma LoginMoveKeepsRows(r: Race, m: Move)
    requires Sound(r) && (m.SignUp? || m.Join? || m.ClearInvites? || m.NewHome? || m.SetHome?)
    ensures Rows(LogsIn(r, m).store)
  {
    KnownStays(r.store, LogsIn(r, m).store);
    if m.n in r.requests {
      var q := r.requests[m.n];
      if HasSession(q) {
        assert Known(r.store, q.session.user);
      }
      if m.SignUp? && q.Absent? && LogsIn(r, m).store != r.store {
        SignUpKeepsRows(r.store, q.email, m.user, m.ws);
      }
    }
  }

  lemma MovedKeepsRows(limit: Id -> int, r: Race, m: Move)
    requires Sound(r)
    ensures Rows(Moved(limit, r, m).store)
  {
    if m.NewWorkspace? {
      StepKeepsRows(limit, r.store, Create(m.user, m.ws));
    } else if m.DropWorkspace? {
      StepKeepsRows(limit, r.store, Delete(m.ws));
    } else if Writes(r, m) {
      WrittenKeepsRows(r.store, r.requests[m.n].w);
    } else if m.SignUp? || m.Join? || m.ClearInvites? || m.NewHome? || m.SetHome? {
      LoginMoveKeepsRows(r, m);
    }
  }

  /** A request keeps its session, or has just found or created its user. */
  lemma SessionStays(limit: Id -> int, r: Race, m: Move, n: nat)
    requires n in Moved(limit, r, m).requests && HasSession(Moved(limit, r, m).requests[n])
    ensures || (n in r.requests && HasSession(r.requests[n])
                && r.requests[n].session == Moved(limit, r, m).requests[n].session)
            || Placed(Moved(limit, r, m).store, Moved(limit, r, m).requests[n].session)
  {
  }

  lemma MovedKeepsPlaced(limit: Id -> int, r: Race, m: Move, n: nat)
    requires Sound(r) && n in Moved(limit, r, m).requests && HasSession(Moved(limit, r, m).requests[n])
    ensures Placed(Moved(limit, r, m).store, Moved(limit, r, m).requests[n].session)
  {
    SessionStays(limit, r, m, n);
    MovedKeepsUsers(limit, r, m);
  }

  lemma MovedKeepsSound(limit: Id -> int, r: Race, m: Move)
    requires Sound(r)
    ensures Sound(Moved(limit, r, m))
  {
    MovedKeepsRows(limit, r, m);
    forall n | n in Moved(limit, r, m).requests && HasSession(Moved(limit, r, m).requests[n])
      ensures Placed(Moved(limit, r, m).store, Moved(limit, r, m).requests[n].session)
    {
      MovedKeepsPlaced(limit, r, m, n);
    }
  }

  lemma {:induction false} RacedIsSound(limit: Id -> int, moves: seq<Move>)
    ensures Sound(Raced(limit, moves))
  {
    if moves != [] {
      RacedIsSound(limit, moves[..|moves| - 1]);
      MovedKeepsSound(limit, Raced(limit, moves[..|moves| - 1]), moves[|moves| - 1]);
    }
  }

  // ---- Whole runs from single moves ------------------------------------------------------

  /** A property of every state of a run, the first and the last included. */
  ghost predicate Always(limit: Id -> int, moves: seq<Move>, good: Race -> bool) {
    forall k :: 0 <= k <= |moves| ==> good(Raced(limit, moves[..k]))
  }

  /** A condition on every move of a run, at the time it is made. */
  ghost predicate Throughout(limit: Id -> int, moves: seq<Move>, allow: (Race, Move) -> bool) {
    forall k :: 0 <= k < |moves| ==> allow(Raced(limit, moves[..k]), moves[k])
  }

  lemma RacedNext(limit: Id -> int, moves: seq<Move>, k: nat)
    requires k < |moves|
    ensures Raced(limit, moves[..k + 1]) == Moved(limit, Raced(limit, moves[..k]), moves[k])
  {
    assert moves[..k + 1][..k] == moves[..k];
  }

  /** From a good state a move leads to a good state exactly if it is allowed. */
  ghost predicate Exact(limit: Id -> int, good: Race -> bool, allow: (Race, Move) -> bool) {
    && good(START)
    && forall r, m :: Sound(r) && good(r) ==> (good(Moved(limit, r, m)) <==> allow(r, m))
  }

  lemma ExactMove(limit: Id -> int, good: Race -> bool, allow: (Race, Move) -> bool, r: Race, m: Move)
    requires Exact(limit, good, allow) && Sound(r) && good(r)
    ensures good(Moved(limit, r, m)) <==> allow(r, m)
  {
  }

  lemma {:induction false} GoodUpTo(limit: Id -> int, moves: seq<Move>, k: nat, good: Race -> bool,
                                    allow: (Race, Move) -> bool)
    requires Exact(limit, good, allow) && Throughout(limit, moves, allow) && k <= |moves|
    ensures good(Raced(limit, moves[..k]))
  {
    if k > 0 {
      GoodUpTo(limit, moves, k - 1, good, allow);
      RacedIsSound(limit, moves[..k - 1]);
      ExactMove(limit, good, allow, Raced(limit, moves[..k - 1]), moves[k - 1]);
      RacedNext(limit, moves, k - 1);
    }
  }

  lemma GoodExactlyIf(limit: Id -> int, moves: seq<Move>, good: Race -> bool, allow: (Race, Move) -> bool)
    requires Exact(limit, good, allow)
    ensures Always(limit, moves, good) <==> Throughout(limit, moves, allow)
  {
    if Throughout(limit, moves, allow) {
      forall k | 0 <= k <= |moves|
        ensures good(Raced(limit, moves[..k]))
      {
        GoodUpTo(limit, moves, k, good, allow);
      }
    }
    if Always(limit, moves, good) {
      forall k | 0 <= k < |moves|
        ensures allow(Raced(limit, moves[..k]), moves[k])
      {
        assert good(Raced(limit, moves[..k])) && good(Raced(limit, moves[..k + 1]));
        RacedIsSound(limit, moves[..k]);
        ExactMove(limit, good, allow, Raced(limit, moves[..k]), moves[k]);
        RacedNext(limit, moves, k);
      }
    }
  }

  // ---- Seats as the quota counts them ----------------------------------------------------

  /** A free seat, where the limit means anything. */
  predicate HasSeat(limit: Id -> int, s: State, ws: Id) {
    ws in s.workspaces && limit(ws) >= 1 ==> Seats(s, ws) < limit(ws)
  }

  /** An invite finds, at the time of its write, a free seat or an invite to its address; a
      membership that a login inserts finds a free seat or is there already. */
  predicate SeatsAllow(limit: Id -> int, r: Race, m: Move) {
    && (Writes(r, m) && r.requests[m.n].w.PutInvite? ==>
          var w := r.requests[m.n].w;
          HasSeat(limit, r.store, w.ws) || (w.ws, w.email) in r.store.invites)
    && (Joins(r, m) ==> HasSeat(limit, r.store, m.ws) || (m.ws, r.requests[m.n].session.user) in r.store.members)
  }

  ghost function SeatsHold(limit: Id -> int): Race -> bool {
    (r: Race) => WithinSeats(limit, r.store)
  }

  function SeatsAllowed(limit: Id -> int): (Race, Move) -> bool {
    (r: Race, m: Move) => SeatsAllow(limit, r, m)
  }

  /** Whether the move adds a row that the quota counts for the workspace. */
  predicate TakesSeat(r: Race, m: Move, ws: Id) {
    || (Writes(r, m) && r.requests[m.n].w.PutInvite? && r.requests[m.n].w.ws == ws
        && (ws, r.requests[m.n].w.email) !in r.store.invites)
    || (Joins(r, m) && m.ws == ws && (ws, r.requests[m.n].session.user) !in r.store.members)
  }

  lemma JoiningAddsOne(s: State, ws: Id, user: Id, role: Role, x: Id)
    ensures MembersOf(WithJoined(s, ws, user, role), x) == MembersOf(s, x) + if x == ws then {user} else {}
  {
    var t := WithJoined(s, ws, user, role);
    forall u | u in MembersOf(s, x) || (x == ws && u == user)
      ensures u in MembersOf(t, x)
    {
      assert (x, u) in t.members;
    }
  }

  lemma JoiningTakesOneSeat(s: State, ws: Id, user: Id, role: Role, x: Id)
    ensures Seats(WithJoined(s, ws, user, role), x)
            == Seats(s, x) + if x == ws && (ws, user) !in s.members then 1 else 0
  {
    var members := MembersOf(s, x);
    JoiningAddsOne(s, ws, user, role, x);
    if x == ws {
      AddingOne(members, user);
      assert user in members <==> (ws, user) in s.members;
    } else {
      assert members + {} == members;
    }
  }

  /** A workspace that a move brings into being holds its creator only. */
  lemma NewWorkspaceSeats(limit: Id -> int, r: Race, m: Move, x: Id)
    requires Sound(r) && x !in r.store.workspaces && x in Moved(limit, r, m).store.workspaces
    ensures m.NewWorkspace? || m.SignUp? || m.NewHome?
    ensures Seats(Moved(limit, r, m).store, x) == 1
  {
    var user := if m.NewHome? then r.requests[m.n].session.user else m.user;
    NewWorkspaceHasOneSeat(r.store, Moved(limit, r, m).store, x, user);
  }

  /** Creating a workspace leaves the seats of the others alone. */
  lemma CreatingSeats(limit: Id -> int, r: Race, m: Move, x: Id)
    requires Sound(r) && x in r.store.workspaces && (m.NewWorkspace? || m.SignUp? || m.NewHome?)
    ensures Seats(Moved(limit, r, m).store, x) == Seats(r.store, x)
  {
    var t := Moved(limit, r, m).store;
    if t != r.store {
      var user := if m.NewHome? then r.requests[m.n].session.user else m.user;
      NewWorkspaceHasOneSeat(r.store, t, m.ws, user);
    }
  }

  lemma WrittenSeats(s: State, w: Write, x: Id)
    requires w.PutInvite? ==> w.ws in s.workspaces
    ensures Seats(Written(s, w), x) <= Seats(s, x)
            + if w.PutInvite? && x == w.ws && (x, w.email) !in s.invites then 1 else 0
    ensures w.PutInvite? && x == w.ws && (x, w.email) !in s.invites ==> Seats(Written(s, w), x) == Seats(s, x) + 1
  {
    if w.PutInvite? {
      InvitingTakesOneSeat(s, w.ws, w.email, w.role, x);
    } else {
      SeatsShrink(s, Written(s, w), x);
    }
  }

  lemma OtherMoveSeats(limit: Id -> int, r: Race, m: Move, x: Id)
    requires !m.NewWorkspace? && !m.SignUp? && !m.NewHome? && !Writes(r, m) && !Joins(r, m)
    ensures Seats(Moved(limit, r, m).store, x) <= Seats(r.store, x)
  {
    SeatsShrink(r.store, Moved(limit, r, m).store, x);
  }

  lemma MovedSeats(limit: Id -> int, r: Race, m: Move, x: Id)
    requires Sound(r) && x in r.store.workspaces
    ensures Seats(Moved(limit, r, m).store, x) <= Seats(r.store, x) + if TakesSeat(r, m, x) then 1 else 0
    ensures TakesSeat(r, m, x) ==> Seats(Moved(limit, r, m).store, x) == Seats(r.store, x) + 1
  {
    var t := Moved(limit, r, m).store;
    if m.NewWorkspace? || m.SignUp? || m.NewHome? {
      CreatingSeats(limit, r, m, x);
    } else if Writes(r, m) {
      var w := r.requests[m.n].w;
      if w.PutInvite? && w.ws !in r.store.workspaces {
        assert t == r.store;
      } else {
        WrittenSeats(r.store, w, x);
      }
    } else if Joins(r, m) {
      var q := r.requests[m.n];
      if m.ws in r.store.workspaces {
        JoiningTakesOneSeat(r.store, m.ws, q.session.user, q.todo[m.ws], x);
      }
    } else {
      OtherMoveSeats(limit, r, m, x);
    }
  }

  /** From a state within the seat limits a move leaves them only by adding an invite or a
      membership when no seat was free. */
  lemma SeatsKeptExactly(limit: Id -> int, r: Race, m: Move)
    requires Sound(r) && WithinSeats(limit, r.store)
    ensures WithinSeats(limit, Moved(limit, r, m).store) <==> SeatsAllow(limit, r, m)
  {
    var t := Moved(limit, r, m).store;
    forall x | x in t.workspaces
      ensures x !in r.store.workspaces ==> Seats(t, x) == 1
      ensures x in r.store.workspaces ==> Seats(t, x) <= Seats(r.store, x) + if TakesSeat(r, m, x) then 1 else 0
    {
      if x in r.store.workspaces {
        MovedSeats(limit, r, m, x);
      } else {
        NewWorkspaceSeats(limit, r, m, x);
      }
    }
    if Writes(r, m) && r.requests[m.n].w.PutInvite? && r.requests[m.n].w.ws in r.store.workspaces {
      MovedSeats(limit, r, m, r.requests[m.n].w.ws);
    }
    if Joins(r, m) && m.ws in r.store.workspaces {
      MovedSeats(limit, r, m, m.ws);
    }
  }

  /** Over any interleaving the seat limits hold in every state if and only if every invite and
      every membership inserted by a login, at the time of its write, found a free seat or its own
      row already there. */
  lemma SeatsHoldExactlyIf(limit: Id -> int, moves: seq<Move>)
    ensures Always(limit, moves, SeatsHold(limit)) <==> Throughout(limit, moves, SeatsAllowed(limit))
  {
    forall r, m | Sound(r) && SeatsHold(limit)(r)
      ensures SeatsHold(limit)(Moved(limit, r, m)) <==> SeatsAllowed(limit)(r, m)
    {
      SeatsKeptExactly(limit, r, m);
    }
    GoodExactlyIf(limit, moves, SeatsHold(limit), SeatsAllowed(limit));
  }

  // ---- Admins ----------------------------------------------------------------------------

  /** A demotion or removal does not, at the time of its write, take the last admin. */
  predicate AdminsAllow(r: Race, m: Move) {
    Writes(r, m) && Demotes(r.requests[m.n].w) ==>
      !IsLastAdmin(r.store, r.requests[m.n].w.ws, r.requests[m.n].w.user)
  }

  ghost function AdminsHold(): Race -> bool {
    (r: Race) => Administered(r.store)
  }

  function AdminsAllowed(): (Race, Move) -> bool {
    (r: Race, m: Move) => AdminsAllow(r, m)
  }

  lemma LastAdminLost(s: State, w: Write)
    requires Rows(s) && Demotes(w) && IsLastAdmin(s, w.ws, w.user)
    ensures w.ws in Written(s, w).workspaces && !HasAdmin(Written(s, w), w.ws)
  {
    var admins := AdminsOf(s, w.ws);
    assert w.user in admins;
    assert |admins - {w.user}| == |admins| - 1;
    forall u | (w.ws, u) in s.members && s.members[(w.ws, u)] == Admin
      ensures u == w.user
    {
      assert u in admins && u !in admins - {w.user};
    }
  }

  lemma WrittenKeepsAdmins(s: State, w: Write)
    requires Administered(s) && (Demotes(w) ==> !IsLastAdmin(s, w.ws, w.user))
    ensures Administered(Written(s, w))
  {
    if Demotes(w) && (w.ws, w.user) in s.members {
      LosingAMemberKeepsAdmins(s, w.ws, w.user, Written(s, w));
    } else {
      AdminsKept(s, Written(s, w));
    }
  }

  lemma LoginMoveKeepsAdmins(r: Race, m: Move)
    requires Administered(r.store)
    requires m.FindUser? || m.SignUp? || m.ReadInvites? || m.Join? || m.ClearInvites? || m.NewHome? || m.SetHome?
    ensures Administered(LogsIn(r, m).store)
  {
    var t := LogsIn(r, m).store;
    if t != r.store {
      var q := r.requests[m.n];
      if m.SignUp? {
        SignUpKeepsAdmins(r.store, q.email, m.user, m.ws);
      } else if m.NewHome? {
        CreateKeepsAdmins(r.store, q.session.user, m.ws);
      } else {
        AdminsKept(r.store, t);
      }
    }
  }

  /** From a state in which every workspace has an admin, a move ends that only by a demotion or
      removal written when the member was the last one. */
  lemma AdminsKeptExactly(limit: Id -> int, r: Race, m: Move)
    requires Sound(r) && Administered(r.store)
    ensures Administered(Moved(limit, r, m).store) <==> AdminsAllow(r, m)
  {
    if m.NewWorkspace? {
      StepKeepsAdmins(limit, r.store, Create(m.user, m.ws));
    } else if m.DropWorkspace? {
      StepKeepsAdmins(limit, r.store, Delete(m.ws));
    } else if Writes(r, m) {
      var w := r.requests[m.n].w;
      if AdminsAllow(r, m) {
        WrittenKeepsAdmins(r.store, w);
      } else {
        LastAdminLost(r.store, w);
      }
    } else if !m.Perform? && !m.CountMembers? && !m.CountInvites? && !m.ReadRole? && !m.CountAdmins? {
      LoginMoveKeepsAdmins(r, m);
    }
  }

  /** Over any interleaving every workspace has an admin in every state if and only if no demotion
      or removal was written when its member was the last one. */
  lemma AdminsStayExactlyIf(limit: Id -> int, moves: seq<Move>)
    ensures Always(limit, moves, AdminsHold()) <==> Throughout(limit, moves, AdminsAllowed())
  {
    forall r, m | Sound(r) && AdminsHold()(r)
      ensures AdminsHold()(Moved(limit, r, m)) <==> AdminsAllowed()(r, m)
    {
      AdminsKeptExactly(limit, r, m);
    }
    GoodExactlyIf(limit, moves, AdminsHold(), AdminsAllowed());
  }

  // ---- Default workspaces ----------------------------------------------------------------

  /** A login that records the default workspace it created finds it still there. */
  predicate HomesAllow(r: Race, m: Move) {
    m.SetHome? && m.n in r.requests && r.requests[m.n].Housed? ==> r.requests[m.n].home in r.store.workspaces
  }

  ghost function HomesHold(): Race -> bool {
    (r: Race) => HomesExist(r.store)
  }

  function HomesAllowed(): (Race, Move) -> bool {
    (r: Race, m: Move) => HomesAllow(r, m)
  }

  lemma HomeRecorded(s: State, e: Email, home: Id)
    requires HomesExist(s) && e in s.users
    ensures HomesExist(WithHome(s, e, Some(home))) <==> home in s.workspaces
  {
    var t := WithHome(s, e, Some(home));
    assert e in t.users && t.users[e].home == Some(home) && t.workspaces == s.workspaces;
  }

  /** From a state in which every default workspace exists, a move ends that only by recording one
      that has been deleted since the login created it. */
  lemma HomesKeptExactly(limit: Id -> int, r: Race, m: Move)
    requires Sound(r) && HomesExist(r.store)
    ensures HomesExist(Moved(limit, r, m).store) <==> HomesAllow(r, m)
  {
    if m.NewWorkspace? {
      StepKeepsHomes(limit, r.store, Create(m.user, m.ws));
    } else if m.DropWorkspace? {
      StepKeepsHomes(limit, r.store, Delete(m.ws));
    } else if m.SetHome? && m.n in r.requests && r.requests[m.n].Housed? {
      HomeRecorded(r.store, r.requests[m.n].session.email, r.requests[m.n].home);
    }
  }

  /** Over any interleaving every default workspace exists in every state if and only if every
      login that recorded one found it still there. */
  lemma HomesExistExactlyIf(limit: Id -> int, moves: seq<Move>)
    ensures Always(limit, moves, HomesHold()) <==> Throughout(limit, moves, HomesAllowed())
  {
    forall r, m | Sound(r) && HomesHold()(r)
      ensures HomesHold()(Moved(limit, r, m)) <==> HomesAllowed()(r, m)
    {
      HomesKeptExactly(limit, r, m);
    }
    GoodExactlyIf(limit, moves, HomesHold(), HomesAllowed());
  }
}
