/** Who may change whose standing: every committed change of a role or an access status is authorised, and the
    audit logs name who made it. */
module Authority {
  import opened Journal
  import opened Policy
  import opened Identity
  import Footprints

  /** A manager other than the user: an OWNER or the recovery user is out of reach, and an ADMIN is managed,
      made and unmade by the OWNER only. */
  predicate ManagerMay(db: Registry, recovery: Option<int>, actor: Id, user: Id, before: Role, after: Role) {
    && actor != user && actor in db.users && CanManage(db.users[actor])
    && before != Owner && after != Owner && !IsRecovery(db, user, recovery)
    && (before == Admin || after == Admin ==> db.users[actor].role == Owner)
  }

  /** The rights table: by which request a user's standing may go from one value to another. */
  predicate Allowed(db: Registry, c: Context, r: Request, user: Id, u: Standing, v: Standing) {
    match r
    case AskLogin(tg, _, _) => c.recovery == Some(tg) && LoginOf(db, user, tg) && v == Standing(Owner, Approved)
    case AskAccess(asker) => asker == user && v == u.(access := Pending) && u.access == Rejected
    case AskUpdateAccess(actor, target, access) =>
      && target == user && ManagerMay(db, c.recovery, actor, user, u.role, v.role)
      && v == u.(access := access) && {u.access, v.access} == {Approved, Blocked}
    case AskDecide(actor, target, verdict) =>
      && target == user && ManagerMay(db, c.recovery, actor, user, u.role, v.role)
      && user in db.pending && u.access == Pending
      && v == u.(access := if verdict == Approve then Approved else Rejected)
    case AskUpdateRole(actor, target, role) =>
      target == user && ManagerMay(db, c.recovery, actor, user, u.role, v.role) && v == u.(role := role)
    case AskReset(actor, target, tg) =>
      target == user && ManagerMay(db, c.recovery, actor, user, u.role, v.role) && LoginOf(db, user, tg)
      && v == Standing(Engineer, Blocked)
    case AskRotate(current, target, confirmed) =>
      || (LoginOf(db, user, current) && u == Standing(Owner, Approved) && v == Standing(Admin, Approved))
      || (user == confirmed && LoginOf(db, user, target) && v == Standing(Owner, Approved))
  }

  function Of(db: Registry, user: Id): Standing
    requires user in db.users
  {
    Standing(db.users[user].role, db.users[user].access)
  }

  /** Whoever's standing differs after a transaction, the request had the right to change it. */
  lemma ChangeAuthorised(db: Registry, c: Context, r: Request, user: Id)
    requires RegistryOk(db) && user in db.users
    ensures user in Exec(db, c, r).users
    ensures Of(Exec(db, c, r), user) != Of(db, user) ==> Allowed(db, c, r, user, Of(db, user), Of(Exec(db, c, r), user))
  {
    if Exec(db, c, r) != db {
      BodyAuthorised(db, c, r, user);
    }
  }

  lemma BodyAuthorised(db: Registry, c: Context, r: Request, user: Id)
    requires RegistryOk(db) && user in db.users && Distinct(db, r) && Body(db, c, r).Ok?
    ensures user in Body(db, c, r).db.users
    ensures Of(Body(db, c, r).db, user) != Of(db, user) ==> Allowed(db, c, r, user, Of(db, user), Of(Body(db, c, r).db, user))
  {
    match r
    case AskLogin(tg, newcomer, session) => LoginAuthorised(db, c, tg, newcomer, session, user);
    case AskReset(actor, target, tg) => ResetAuthorised(db, c, actor, target, tg, user);
    case AskRotate(current, target, confirmed) => RotateAuthorised(db, c, current, target, confirmed, user);
    case AskUpdateRole(actor, target, role) => RoleAuthorised(db, c, actor, target, role, user);
    case _ => AccessAuthorised(db, c, r, user);
  }

  lemma RoleAuthorised(db: Registry, c: Context, actor: Id, target: Id, role: Role, user: Id)
    requires user in db.users && UpdateRole(db, c, actor, target, role).Ok?
    ensures var db' := UpdateRole(db, c, actor, target, role).db;
            user in db'.users
            && (Of(db', user) != Of(db, user) ==> Allowed(db, c, AskUpdateRole(actor, target, role), user, Of(db, user), Of(db', user)))
  {
    SetRoleUsers(db, target, actor, role);
  }

  lemma AccessAuthorised(db: Registry, c: Context, r: Request, user: Id)
    requires user in db.users && (r.AskAccess? || r.AskUpdateAccess? || r.AskDecide?) && Body(db, c, r).Ok?
    ensures user in Body(db, c, r).db.users
    ensures Of(Body(db, c, r).db, user) != Of(db, user) ==> Allowed(db, c, r, user, Of(db, user), Of(Body(db, c, r).db, user))
  {
    match r
    case AskAccess(asker) => TransitionUsers(db, asker, asker, Pending, c.now);
    case AskUpdateAccess(actor, target, access) => TransitionUsers(db, target, actor, access, c.now);
    case AskDecide(actor, target, verdict) =>
      TransitionUsers(db, target, actor, if verdict == Approve then Approved else Rejected, c.now);
  }

  lemma LoginAuthorised(db: Registry, c: Context, tg: int, newcomer: Id, session: Id, user: Id)
    requires user in db.users && Distinct(db, AskLogin(tg, newcomer, session)) && Login(db, c, tg, newcomer, session).Ok?
    ensures var db' := Login(db, c, tg, newcomer, session).db;
            && user in db'.users
            && (Of(db', user) != Of(db, user) ==> Allowed(db, c, AskLogin(tg, newcomer, session), user, Of(db, user), Of(db', user)))
  {
    Footprints.LoginTouches(db, c, tg, newcomer, session);
    var db' := Login(db, c, tg, newcomer, session).db;
    if user !in Footprints.Writes(db, AskLogin(tg, newcomer, session)) {
      assert Footprints.SliceOf(db', user).row == Some(db'.users[user]) && Footprints.SliceOf(db, user).row == Some(db.users[user]);
    } else if c.recovery == Some(tg) {
      ReconciledStanding(db, c, user);
    }
  }

  lemma ReconciledStanding(db: Registry, c: Context, user: Id)
    requires user in db.users
    ensures Reconcile(db, c, user).Ok? ==>
              user in Reconcile(db, c, user).db.users && Of(Reconcile(db, c, user).db, user) == Standing(Owner, Approved)
  {
  }

  lemma ResetAuthorised(db: Registry, c: Context, actor: Id, target: Id, tg: int, user: Id)
    requires CoreOk(db) && user in db.users && Reset(db, c, actor, target, tg).Ok?
    ensures var db' := Reset(db, c, actor, target, tg).db;
            user in db'.users && (user != target ==> db'.users[user] == db.users[user])
            && (user == target ==> Allowed(db, c, AskReset(actor, target, tg), user, Of(db, user), Of(db', user)))
  {
    assert forall other :: other in db.logins && other != tg ==> db.logins[other] != target;
  }

  lemma RotateAuthorised(db: Registry, c: Context, current: int, target: int, confirmed: Id, user: Id)
    requires user in db.users && Rotate(db, c, current, target, confirmed).Ok?
    ensures var db' := Rotate(db, c, current, target, confirmed).db;
            user in db'.users
            && (user != confirmed && user != db.logins[current] ==> db'.users[user] == db.users[user])
            && (user == confirmed || user == db.logins[current] ==>
                  Allowed(db, c, AskRotate(current, target, confirmed), user, Of(db, user), Of(db', user)))
  {
    RotatedUsers(db, c, db.logins[current], confirmed);
  }

  // ----- Attribution -----

  /** Who the audit logs hold responsible for a request. */
  function Responsible(db: Registry, r: Request): Id {
    match r
    case AskLogin(tg, newcomer, _) => if tg in db.logins then db.logins[tg] else newcomer
    case AskAccess(user) => user
    case AskUpdateAccess(actor, _, _) => actor
    case AskDecide(actor, _, _) => actor
    case AskUpdateRole(actor, _, _) => actor
    case AskReset(actor, _, _) => actor
    case AskRotate(current, _, confirmed) => if current in db.logins then db.logins[current] else confirmed
  }

  /** `later` continues `earlier`, and every added event is by `actor`. */
  predicate Adds<T(==)>(earlier: seq<Event<T>>, later: seq<Event<T>>, actor: Id) {
    earlier <= later && forall k :: |earlier| <= k < |later| ==> later[k].actor == actor
  }

  predicate AddsEvents(db: Registry, db': Registry, actor: Id) {
    Adds(db.accessLog, db'.accessLog, actor) && Adds(db.roleLog, db'.roleLog, actor)
  }

  lemma TwoSteps(a: Registry, b: Registry, c: Registry, actor: Id)
    requires AddsEvents(a, b, actor) && AddsEvents(b, c, actor)
    ensures AddsEvents(a, c, actor)
  {
    assert forall k :: |a.accessLog| <= k < |b.accessLog| ==> c.accessLog[k] == b.accessLog[k];
    assert forall k :: |a.roleLog| <= k < |b.roleLog| ==> c.roleLog[k] == b.roleLog[k];
  }

  lemma ResetEvents(db: Registry, c: Context, actor: Id, target: Id, tg: int)
    requires Reset(db, c, actor, target, tg).Ok?
    ensures AddsEvents(db, Reset(db, c, actor, target, tg).db, actor)
  {
    var db1 := Transition(Detached(db, target), target, actor, Blocked, c.now);
    TwoSteps(db, db1, SetRole(db1, target, actor, Engineer), actor);
  }

  lemma ReconcileEvents(db: Registry, c: Context, user: Id)
    requires user in db.users && Reconcile(db, c, user).Ok?
    ensures AddsEvents(db, Reconcile(db, c, user).db, user)
  {
    var db1 := SetRole(db, user, user, Owner);
    TwoSteps(db, db1, ReconcileApproval(db1, c, user), user);
  }

  lemma RotateEvents(db: Registry, c: Context, current: int, target: int, confirmed: Id)
    requires Rotate(db, c, current, target, confirmed).Ok?
    ensures AddsEvents(db, Rotate(db, c, current, target, confirmed).db, db.logins[current])
  {
    RotatedEvents(db, c, db.logins[current], confirmed);
  }

  lemma SetRoleEvents(db: Registry, user: Id, actor: Id, role: Role)
    requires user in db.users
    ensures AddsEvents(db, SetRole(db, user, actor, role), actor)
  {
  }

  lemma AdmittedEvents(db: Registry, c: Context, owner: Id, confirmed: Id)
    requires confirmed in db.users
    ensures AddsEvents(db, Resolve(Admitted(db, c, owner, confirmed), confirmed, true, owner), owner)
  {
    TransitionEvents(db, confirmed, owner, Approved, c.now);
  }

  lemma RotatedEvents(db: Registry, c: Context, owner: Id, confirmed: Id)
    requires owner in db.users && confirmed in db.users
    ensures AddsEvents(db, Rotated(db, c, owner, confirmed), owner)
  {
    SetRoleEvents(db, owner, owner, Admin);
    AdmittedEvents(SetRole(db, owner, owner, Admin), c, owner, confirmed);
    var db1 := SetRole(db, owner, owner, Admin);
    var db2 := Admitted(db1, c, owner, confirmed);
    var db3 := Resolve(db2, confirmed, true, owner);
    TwoSteps(db, db1, db3, owner);
    SetRoleEvents(db3, confirmed, owner, Owner);
    TwoSteps(db, db3, SetRole(db3, confirmed, owner, Owner), owner);
  }

  /** One transition or one change of role at most. */
  lemma PlainEvents(db: Registry, c: Context, r: Request)
    requires r.AskAccess? || r.AskUpdateAccess? || r.AskDecide? || r.AskUpdateRole?
    requires Body(db, c, r).Ok?
    ensures AddsEvents(db, Body(db, c, r).db, Responsible(db, r))
  {
    match r
    case AskAccess(user) => TransitionEvents(db, user, user, Pending, c.now);
    case AskUpdateAccess(actor, target, access) => TransitionEvents(db, target, actor, access, c.now);
    case AskDecide(actor, target, verdict) =>
      TransitionEvents(db, target, actor, if verdict == Approve then Approved else Rejected, c.now);
    case AskUpdateRole(_, _, _) =>
  }

  lemma TransitionEvents(db: Registry, user: Id, actor: Id, access: Access, now: int)
    requires user in db.users
    ensures AddsEvents(db, Transition(db, user, actor, access, now), actor)
  {
  }

  /** The logs only grow, and every event a transaction adds names the one responsible. */
  lemma {:induction false} EventsNameActor(db: Registry, c: Context, r: Request)
    ensures AddsEvents(db, Exec(db, c, r), Responsible(db, r))
  {
    if Exec(db, c, r) != db {
      match r
      case AskLogin(tg, _, _) =>
        if tg in db.logins && c.recovery == Some(tg) && db.logins[tg] in db.users {
          ReconcileEvents(db, c, db.logins[tg]);
        }
      case AskReset(actor, target, tg) => ResetEvents(db, c, actor, target, tg);
      case AskRotate(current, target, confirmed) => RotateEvents(db, c, current, target, confirmed);
      case _ => PlainEvents(db, c, r);
    }
  }
}
