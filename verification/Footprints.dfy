/** What the registry holds about one user, and which users a request reads and writes. */
module Footprints {
  import opened Journal
  import opened Policy
  import opened Identity

  /** Everything about one user except the logs. */
  datatype Slice = Slice(row: Option<User>, pending: bool, logins: set<int>, sessions: set<Id>, notice: Option<Outbox.Row>)

  function LoginsOf(db: Registry, user: Id): set<int> {
    set tg | tg in db.logins && db.logins[tg] == user
  }

  function SessionsOf(db: Registry, user: Id): set<Id> {
    set s | s in db.sessions && db.sessions[s] == user
  }

  function SliceOf(db: Registry, user: Id): Slice {
    Slice(if user in db.users then Some(db.users[user]) else None, user in db.pending, LoginsOf(db, user),
          SessionsOf(db, user), if user in db.notices then Some(db.notices[user]) else None)
  }

  /** No user disappears, only the users named change, and the logs only grow. */
  ghost predicate TouchesOnly(db: Registry, db': Registry, users: set<Id>) {
    && db.users.Keys <= db'.users.Keys
    && (forall u :: u !in users ==> SliceOf(db', u) == SliceOf(db, u))
    && db.accessLog <= db'.accessLog && db.roleLog <= db'.roleLog && db.decided <= db'.decided
  }

  lemma Then(a: Registry, b: Registry, c: Registry, users: set<Id>)
    requires TouchesOnly(a, b, users) && TouchesOnly(b, c, users)
    ensures TouchesOnly(a, c, users)
  {
  }

  // ----- Primitives -----

  lemma TransitionTouches(db: Registry, user: Id, actor: Id, access: Access, now: int, users: set<Id>)
    requires user in db.users && user in users
    ensures TouchesOnly(db, Transition(db, user, actor, access, now), users)
  {
  }

  lemma SetRoleTouches(db: Registry, user: Id, actor: Id, role: Role, users: set<Id>)
    requires user in db.users && user in users
    ensures TouchesOnly(db, SetRole(db, user, actor, role), users)
  {
  }

  lemma FillTouches(db: Registry, user: Id, actor: Id, now: int, users: set<Id>)
    requires user in db.users && user in users
    ensures TouchesOnly(db, FillApproval(db, user, actor, now), users)
  {
  }

  lemma ResolveTouches(db: Registry, user: Id, approved: bool, decider: Id, users: set<Id>)
    requires user in users
    ensures TouchesOnly(db, Resolve(db, user, approved, decider), users)
  {
  }

  lemma RevokeTouches(db: Registry, of: set<Id>, users: set<Id>)
    requires of <= users
    ensures TouchesOnly(db, Revoke(db, of), users)
  {
    var db' := Revoke(db, of);
    forall u | u !in users ensures SliceOf(db', u) == SliceOf(db, u) {
      assert SessionsOf(db', u) == SessionsOf(db, u);
    }
  }

  // ----- Requests -----

  /** The users a request writes. */
  function Writes(db: Registry, r: Request): set<Id> {
    match r
    case AskLogin(tg, newcomer, _) => if tg in db.logins then {db.logins[tg]} else {newcomer}
    case AskAccess(user) => {user}
    case AskUpdateAccess(_, target, _) => {target}
    case AskDecide(_, target, _) => {target}
    case AskUpdateRole(_, target, _) => {target}
    case AskReset(_, target, _) => {target}
    case AskRotate(current, _, confirmed) => if current in db.logins then {db.logins[current], confirmed} else {confirmed}
  }

  lemma DetachedTouches(db: Registry, user: Id)
    ensures TouchesOnly(db, Detached(db, user), {user})
  {
    RevokeTouches(db, {user}, {user});
    var db1 := Revoke(db, {user});
    assert TouchesOnly(db1, Detached(db, user), {user});
    Then(db, db1, Detached(db, user), {user});
  }

  lemma ResetTouches(db: Registry, c: Context, actor: Id, target: Id, telegram: int)
    requires Reset(db, c, actor, target, telegram).Ok?
    ensures TouchesOnly(db, Reset(db, c, actor, target, telegram).db, {target})
  {
    var w := {target};
    var db1 := Detached(db, target);
    DetachedTouches(db, target);
    var db2 := Transition(db1, target, actor, Blocked, c.now);
    TransitionTouches(db1, target, actor, Blocked, c.now, w);
    Then(db, db1, db2, w);
    var db3 := SetRole(db2, target, actor, Engineer);
    SetRoleTouches(db2, target, actor, Engineer, w);
    Then(db, db2, db3, w);
    assert db3.logins == db.logins;
    LoginRemoved(db3, target, telegram);
    Then(db, db3, db3.(logins := db3.logins - {telegram}), w);
  }

  lemma LoginRemoved(db: Registry, user: Id, telegram: int)
    requires LoginOf(db, user, telegram)
    ensures TouchesOnly(db, db.(logins := db.logins - {telegram}), {user})
  {
    var db' := db.(logins := db.logins - {telegram});
    forall u | u != user ensures SliceOf(db', u) == SliceOf(db, u) {
      assert LoginsOf(db', u) == LoginsOf(db, u);
    }
  }

  lemma RotatedTouches(db: Registry, c: Context, owner: Id, confirmed: Id)
    requires owner in db.users && confirmed in db.users
    ensures TouchesOnly(db, Rotated(db, c, owner, confirmed), {owner, confirmed})
  {
    var w := {owner, confirmed};
    var db1 := SetRole(db, owner, owner, Admin);
    SetRoleTouches(db, owner, owner, Admin, w);
    var db2 := Admitted(db1, c, owner, confirmed);
    TransitionTouches(db1, confirmed, owner, Approved, c.now, w);
    FillTouches(db1, confirmed, owner, c.now, w);
    Then(db, db1, db2, w);
    var db3 := Resolve(db2, confirmed, true, owner);
    ResolveTouches(db2, confirmed, true, owner, w);
    Then(db, db2, db3, w);
    var db4 := SetRole(db3, confirmed, owner, Owner);
    SetRoleTouches(db3, confirmed, owner, Owner, w);
    Then(db, db3, db4, w);
    RevokeTouches(db4, w, w);
    Then(db, db4, Revoke(db4, w), w);
  }

  /** Rotation keeps the logins and notices, and revokes the sessions of the two users. */
  lemma RotatedColumns(db: Registry, c: Context, owner: Id, confirmed: Id)
    requires owner in db.users && confirmed in db.users
    ensures var db' := Rotated(db, c, owner, confirmed);
            db'.logins == db.logins && db'.notices == db.notices && db'.sessions == Revoke(db, {owner, confirmed}).sessions
  {
    var db1 := SetRole(db, owner, owner, Admin);
    SetRoleUsers(db, owner, owner, Admin);
    var db2 := Admitted(db1, c, owner, confirmed);
    assert db2.logins == db1.logins && db2.notices == db1.notices && db2.sessions == db1.sessions;
    SetRoleUsers(Resolve(db2, confirmed, true, owner), confirmed, owner, Owner);
  }

  lemma ReconcileTouches(db: Registry, c: Context, user: Id)
    requires user in db.users && Reconcile(db, c, user).Ok?
    ensures TouchesOnly(db, Reconcile(db, c, user).db, {user})
  {
    var w := {user};
    var db1 := SetRole(db, user, user, Owner);
    SetRoleTouches(db, user, user, Owner, w);
    var db2 := ReconcileApproval(db1, c, user);
    TransitionTouches(db1, user, user, Approved, c.now, w);
    assert TouchesOnly(db1, db2, w);
    Then(db, db1, db2, w);
    ResolveTouches(db2, user, true, user, w);
    Then(db, db2, Resolve(db2, user, true, user), w);
  }

  lemma UpsertTouches(db: Registry, c: Context, telegram: int, newcomer: Id, session: Id)
    requires newcomer !in db.users && Upsert(db, c, telegram, newcomer).Ok?
    ensures TouchesOnly(db, Upsert(db, c, telegram, newcomer).db, Writes(db, AskLogin(telegram, newcomer, session)))
  {
    var db' := Upsert(db, c, telegram, newcomer).db;
    if telegram !in db.logins {
      forall u | u != newcomer ensures SliceOf(db', u) == SliceOf(db, u) {
        assert LoginsOf(db', u) == LoginsOf(db, u);
      }
    } else if c.recovery == Some(telegram) && db.logins[telegram] in db.users {
      ReconcileTouches(db, c, db.logins[telegram]);
    }
  }

  lemma SessionAdded(db: Registry, user: Id, session: Id)
    requires session !in db.sessions
    ensures TouchesOnly(db, db.(sessions := db.sessions[session := user]), {user})
  {
    var db' := db.(sessions := db.sessions[session := user]);
    forall u | u != user ensures SliceOf(db', u) == SliceOf(db, u) {
      assert SessionsOf(db', u) == SessionsOf(db, u);
    }
  }

  lemma UpsertKeepsSessions(db: Registry, c: Context, telegram: int, newcomer: Id)
    requires Upsert(db, c, telegram, newcomer).Ok?
    ensures var db' := Upsert(db, c, telegram, newcomer).db;
            db'.sessions == db.sessions && db'.notices == db.notices
            && db'.logins == if telegram in db.logins then db.logins else db.logins[telegram := newcomer]
  {
    if telegram in db.logins && c.recovery == Some(telegram) && db.logins[telegram] in db.users {
      ReconciledUsers(db, c, db.logins[telegram]);
    }
  }

  /** Only logins add logins and sessions, and a login is only ever added for a new user. */
  lemma NewKeys(db: Registry, c: Context, r: Request)
    requires Body(db, c, r).Ok?
    ensures var db' := Body(db, c, r).db;
            && (forall tg :: tg in db'.logins && !(tg in db.logins && db'.logins[tg] == db.logins[tg]) ==>
                  r.AskLogin? && tg == r.telegram && tg !in db.logins && db'.logins[tg] == r.newcomer)
            && (forall s :: s in db'.sessions && !(s in db.sessions && db'.sessions[s] == db.sessions[s]) ==>
                  r.AskLogin? && s == r.session)
  {
    match r
    case AskLogin(tg, newcomer, session) => UpsertKeepsSessions(db, c, tg, newcomer);
    case AskAccess(user) => TransitionUsers(db, user, user, Pending, c.now);
    case AskUpdateAccess(actor, target, access) => TransitionUsers(db, target, actor, access, c.now);
    case AskDecide(actor, target, verdict) =>
      var access := if verdict == Approve then Approved else Rejected;
      TransitionUsers(db, target, actor, access, c.now);
      ResolveColumns(Transition(db, target, actor, access, c.now), target, verdict == Approve, actor);
    case AskUpdateRole(actor, target, role) => SetRoleUsers(db, target, actor, role);
    case AskReset(actor, target, tg) => ResetColumns(db, c, actor, target, tg);
    case AskRotate(current, _, confirmed) => RotatedColumns(db, c, db.logins[current], confirmed);
  }

  lemma LoginTouches(db: Registry, c: Context, telegram: int, newcomer: Id, session: Id)
    requires newcomer !in db.users && session !in db.sessions && Login(db, c, telegram, newcomer, session).Ok?
    ensures TouchesOnly(db, Login(db, c, telegram, newcomer, session).db, Writes(db, AskLogin(telegram, newcomer, session)))
  {
    var w := Writes(db, AskLogin(telegram, newcomer, session));
    UpsertTouches(db, c, telegram, newcomer, session);
    UpsertKeepsSessions(db, c, telegram, newcomer);
    var db1 := Upsert(db, c, telegram, newcomer).db;
    assert w == {db1.logins[telegram]};
    SessionAdded(db1, db1.logins[telegram], session);
    Then(db, db1, db1.(sessions := db1.sessions[session := db1.logins[telegram]]), w);
  }

  lemma UpdateAccessTouches(db: Registry, c: Context, actor: Id, target: Id, access: Access)
    requires UpdateAccess(db, c, actor, target, access).Ok?
    ensures TouchesOnly(db, UpdateAccess(db, c, actor, target, access).db, {target})
  {
    var db1 := Transition(db, target, actor, access, c.now);
    TransitionTouches(db, target, actor, access, c.now, {target});
    RevokeTouches(db1, {target}, {target});
    Then(db, db1, Revoke(db1, {target}), {target});
  }

  lemma DecideTouches(db: Registry, c: Context, actor: Id, target: Id, verdict: Verdict)
    requires Decide(db, c, actor, target, verdict).Ok?
    ensures TouchesOnly(db, Decide(db, c, actor, target, verdict).db, {target})
  {
    var access := if verdict == Approve then Approved else Rejected;
    var db1 := Transition(db, target, actor, access, c.now);
    TransitionTouches(db, target, actor, access, c.now, {target});
    ResolveTouches(db1, target, verdict == Approve, actor, {target});
    Then(db, db1, Resolve(db1, target, verdict == Approve, actor), {target});
  }

  lemma RequestAccessTouches(db: Registry, c: Context, user: Id)
    requires RequestAccess(db, c, user).Ok?
    ensures TouchesOnly(db, RequestAccess(db, c, user).db, {user})
  {
    var db1 := Transition(db, user, user, Pending, c.now);
    TransitionTouches(db, user, user, Pending, c.now, {user});
    assert TouchesOnly(db1, RequestAccess(db, c, user).db, {user});
    Then(db, db1, RequestAccess(db, c, user).db, {user});
  }

  /** Every request touches only the users it writes. */
  lemma BodyTouches(db: Registry, c: Context, r: Request)
    requires Distinct(db, r) && Body(db, c, r).Ok?
    ensures TouchesOnly(db, Body(db, c, r).db, Writes(db, r))
  {
    match r
    case AskLogin(tg, newcomer, session) => LoginTouches(db, c, tg, newcomer, session);
    case AskAccess(user) => RequestAccessTouches(db, c, user);
    case AskUpdateAccess(actor, target, access) => UpdateAccessTouches(db, c, actor, target, access);
    case AskDecide(actor, target, verdict) => DecideTouches(db, c, actor, target, verdict);
    case AskUpdateRole(actor, target, role) =>
      if target in db.users {
        SetRoleTouches(db, target, actor, role, {target});
      }
    case AskReset(actor, target, tg) => ResetTouches(db, c, actor, target, tg);
    case AskRotate(current, target, confirmed) => RotatedTouches(db, c, db.logins[current], confirmed);
  }

  /** No committed transaction makes a holder of equipment ineligible. */
  lemma HoldersKept(db: Registry, c: Context, r: Request, user: Id)
    requires user in c.holders && user in db.users && Eligible(Standing(db.users[user].role, db.users[user].access))
    ensures user in Exec(db, c, r).users
    ensures Eligible(Standing(Exec(db, c, r).users[user].role, Exec(db, c, r).users[user].access))
  {
    if Distinct(db, r) && Body(db, c, r).Ok? {
      BodyTouches(db, c, r);
    }
  }
}
