/** Users, Telegram logins, access requests, sessions and audit logs. Each operation is one transaction under
    the row locks of the users involved; it either commits as a whole or leaves the registry unchanged. */
module Identity {
  import opened Journal
  import opened Policy
  import Outbox

  datatype User = User(role: Role, access: Access, approvedAt: Option<int>, approvedBy: Option<Id>)

  datatype Event<T> = Event(actor: Id, target: Id, before: T, after: T)

  datatype Verdict = StayPending | Approve | Reject

  datatype Decision = Decision(user: Id, approved: bool, decider: Id)

  /** `pending` holds the users with a PENDING access request, at most one each by a unique index;
      `decided` the other requests. `sessions` maps the sessions not revoked to their users, `notices` a user to
      the outbox row that tells the administrators of its latest access request. */
  datatype Registry = Registry(
    users: map<Id, User>, logins: map<int, Id>, pending: set<Id>, decided: seq<Decision>,
    accessLog: seq<Event<Access>>, roleLog: seq<Event<Role>>,
    sessions: map<Id, Id>, notices: map<Id, Outbox.Row>)

  datatype Error =
    | Forbidden | NotFound | InvalidTransition | RecoveryInvariant | OutstandingCustody | ActiveProcurement
    | NoPendingRequest | AlreadyApproved | AccessBlocked | OwnerConflict | IdentityMismatch | CommitRefused
    | SameIdentity | CurrentMissing | TargetMissing | ConfirmationMismatch | SameUser | UserMissing | NotTheOwner
    | OwnerNotApproved | TargetHolds | VerificationFailed

  datatype Outcome = Ok(db: Registry) | Failed(error: Error)

  /** What a transaction reads of other domains: who holds equipment, who has unfinished procurement. */
  datatype Context = Context(recovery: Option<int>, holders: set<Id>, creating: set<Id>, involved: set<Id>, now: int)

  // ----- Policy -----

  predicate CanManage(u: User) {
    u.access == Approved && (u.role == Admin || u.role == Owner)
  }

  predicate StandardRole(r: Role) {
    r == Engineer || r == SeniorEngineer || r == Manager
  }

  predicate CustodyRole(r: Role) {
    r == Engineer || r == SeniorEngineer
  }

  /** procurement.create */
  predicate CanCreateProcurement(r: Role) {
    r == Admin || r == Owner
  }

  predicate IsRecovery(db: Registry, user: Id, recovery: Option<int>) {
    recovery.Some? && recovery.value in db.logins && db.logins[recovery.value] == user
  }

  /** _lock_actor_and_target */
  function LockPair(db: Registry, actor: Id, target: Id): Option<Error> {
    if actor !in db.users || !CanManage(db.users[actor]) then Some(Forbidden)
    else if target !in db.users then Some(NotFound)
    else None
  }

  // ----- Primitives -----

  /** transition_user_access */
  function Transition(db: Registry, user: Id, actor: Id, access: Access, now: int): Registry
    requires user in db.users
  {
    var u := db.users[user];
    if u.access == access then db
    else db.(users := db.users[user := u.(
               access := access,
               approvedAt := if access == Approved then Some(now) else None,
               approvedBy := if access == Approved then Some(actor) else None)],
             accessLog := db.accessLog + [Event(actor, user, u.access, access)])
  }

  function SetRole(db: Registry, user: Id, actor: Id, role: Role): Registry
    requires user in db.users
  {
    var u := db.users[user];
    if u.role == role then db
    else db.(users := db.users[user := u.(role := role)],
             roleLog := db.roleLog + [Event(actor, user, u.role, role)])
  }

  function FillApproval(db: Registry, user: Id, actor: Id, now: int): Registry
    requires user in db.users
  {
    var u := db.users[user];
    db.(users := db.users[user := u.(
          approvedAt := if u.approvedAt.None? then Some(now) else u.approvedAt,
          approvedBy := if u.approvedBy.None? then Some(actor) else u.approvedBy)])
  }

  function Resolve(db: Registry, user: Id, approved: bool, decider: Id): Registry {
    if user in db.pending
    then db.(pending := db.pending - {user}, decided := db.decided + [Decision(user, approved, decider)])
    else db
  }

  function Revoke(db: Registry, users: set<Id>): Registry {
    db.(sessions := map s | s in db.sessions && db.sessions[s] !in users :: db.sessions[s])
  }

  // ----- Operations -----

  /** update_user_access */
  function UpdateAccess(db: Registry, c: Context, actor: Id, target: Id, access: Access): Outcome {
    if LockPair(db, actor, target).Some? then Failed(LockPair(db, actor, target).value)
    else
      var t := db.users[target];
      if access == t.access then Ok(db)
      else if !(t.access == Approved && access == Blocked) && !(t.access == Blocked && access == Approved)
      then Failed(InvalidTransition)
      else if t.role == Owner || IsRecovery(db, target, c.recovery) then Failed(RecoveryInvariant)
      else if t.role == Admin && db.users[actor].role != Owner then Failed(Forbidden)
      else if actor == target then Failed(Forbidden)
      else if access == Blocked && target in c.holders then Failed(OutstandingCustody)
      else if access == Blocked && CanCreateProcurement(t.role) && target in c.creating then Failed(ActiveProcurement)
      else
        var db1 := Transition(db, target, actor, access, c.now);
        Ok(if access == Blocked then Revoke(db1, {target}) else db1)
  }

  /** decide_pending_access_request */
  function Decide(db: Registry, c: Context, actor: Id, target: Id, verdict: Verdict): Outcome {
    if verdict == StayPending then Failed(InvalidTransition)
    else if LockPair(db, actor, target).Some? then Failed(LockPair(db, actor, target).value)
    else
      var t := db.users[target];
      if actor == target then Failed(Forbidden)
      else if t.role == Owner || IsRecovery(db, target, c.recovery) then Failed(RecoveryInvariant)
      else if t.role == Admin && db.users[actor].role != Owner then Failed(Forbidden)
      else if t.access != Pending then Failed(InvalidTransition)
      else if target !in db.pending then Failed(NoPendingRequest)
      else Ok(Resolve(Transition(db, target, actor, if verdict == Approve then Approved else Rejected, c.now),
                      target, verdict == Approve, actor))
  }

  /** update_user_role */
  function UpdateRole(db: Registry, c: Context, actor: Id, target: Id, role: Role): Outcome {
    if LockPair(db, actor, target).Some? then Failed(LockPair(db, actor, target).value)
    else
      var t := db.users[target];
      if actor == target || role == Owner then Failed(Forbidden)
      else if t.role == Owner || IsRecovery(db, target, c.recovery) then Failed(RecoveryInvariant)
      else if t.role == Admin && db.users[actor].role != Owner then Failed(Forbidden)
      else if !StandardRole(role) && !(role == Admin && db.users[actor].role == Owner) then Failed(Forbidden)
      else if role == t.role then Ok(db)
      else if !CustodyRole(role) && target in c.holders then Failed(OutstandingCustody)
      else if CanCreateProcurement(t.role) && !CanCreateProcurement(role) && target in c.creating
      then Failed(ActiveProcurement)
      else Ok(SetRole(db, target, actor, role))
  }

  /** create_or_get_access_request, and the administrators' notice enqueued with it under the request's key */
  function RequestAccess(db: Registry, c: Context, user: Id): Outcome {
    if user !in db.users then Failed(NotFound)
    else if db.users[user].access == Approved then Failed(AlreadyApproved)
    else if db.users[user].access == Blocked then Failed(AccessBlocked)
    else
      var db1 := Transition(db, user, user, Pending, c.now);
      Ok(db1.(pending := db1.pending + {user},
              notices := if user in db.pending && user in db.notices then db.notices
                         else db.notices[user := Outbox.NewRow(user, "sendMessage", c.now, None)]))
  }

  /** The notice of a pending request is withdrawn, unless a worker has claimed it. */
  function WithdrawNotice(db: Registry, user: Id): Registry {
    if user in db.pending && user in db.notices
    then db.(notices := db.notices[user := Outbox.Withdrawn(db.notices[user])]) else db
  }

  predicate LoginOf(db: Registry, user: Id, telegram: int) {
    telegram in db.logins && db.logins[telegram] == user
  }

  /** Sessions revoked, the pending request gone, its notice withdrawn. */
  function Detached(db: Registry, user: Id): Registry {
    WithdrawNotice(Revoke(db, {user}), user).(pending := db.pending - {user})
  }

  /** reset_user_account: `telegram` is the confirmed Telegram id */
  function Reset(db: Registry, c: Context, actor: Id, target: Id, telegram: int): Outcome {
    if !(exists tg :: tg in db.logins && db.logins[tg] == target) then Failed(NotFound)
    else if !LoginOf(db, target, telegram) then Failed(IdentityMismatch)
    else if LockPair(db, actor, target).Some? then Failed(LockPair(db, actor, target).value)
    else
      var t := db.users[target];
      if actor == target then Failed(Forbidden)
      else if t.role == Owner || c.recovery == Some(telegram) then Failed(RecoveryInvariant)
      else if t.role == Admin && db.users[actor].role != Owner then Failed(Forbidden)
      else if target in c.holders then Failed(OutstandingCustody)
      else if target in c.involved then Failed(ActiveProcurement)
      else
        var db1 := Detached(db, target);
        var db2 := Transition(db1, target, actor, Blocked, c.now);
        var db3 := SetRole(db2, target, actor, Engineer);
        Ok(db3.(logins := db3.logins - {telegram}))
  }

  predicate IsOwner(db: Registry, user: Id) {
    user in db.users && db.users[user].role == Owner
  }

  predicate OwnerOtherThan(db: Registry, user: Id) {
    exists u :: u in db.users && u != user && IsOwner(db, u)
  }

  /** The approval written by reconcile_recovery_owner once the role is set. */
  function ReconcileApproval(db: Registry, c: Context, user: Id): Registry
    requires user in db.users
  {
    var u := db.users[user];
    if u.access != Approved then Transition(db, user, user, Approved, c.now)
    else if u.approvedAt.None? || u.approvedBy.None?
    then db.(users := db.users[user := u.(approvedAt := Some(c.now), approvedBy := Some(user))])
    else db
  }

  /** reconcile_recovery_owner, for the user of the configured recovery login */
  function Reconcile(db: Registry, c: Context, user: Id): Outcome
    requires user in db.users
  {
    var u := db.users[user];
    if u.role == Owner && u.access == Approved && u.approvedAt.Some? && u.approvedBy.Some? && user !in db.pending then Ok(db)
    else if OwnerOtherThan(db, user) then Failed(OwnerConflict)
    else
      var db1 := SetRole(db, user, user, Owner);
      Ok(Resolve(ReconcileApproval(db1, c, user), user, true, user))
  }

  /** upsert_telegram_identity; `newcomer` is the id of a user created on first login */
  function Upsert(db: Registry, c: Context, telegram: int, newcomer: Id): Outcome {
    if telegram !in db.logins then
      if c.recovery == Some(telegram) && (exists u :: u in db.users && IsOwner(db, u)) then Failed(OwnerConflict)
      else
        var user := if c.recovery == Some(telegram) then User(Owner, Approved, Some(c.now), None)
                    else User(Engineer, Pending, None, None);
        Ok(db.(users := db.users[newcomer := user], logins := db.logins[telegram := newcomer]))
    else if c.recovery != Some(telegram) || db.logins[telegram] !in db.users then Ok(db)
    else Reconcile(db, c, db.logins[telegram])
  }

  /** A login: the identity, then a session for its user. */
  function Login(db: Registry, c: Context, telegram: int, newcomer: Id, session: Id): Outcome {
    var result := Upsert(db, c, telegram, newcomer);
    if result.Ok? && telegram in result.db.logins
    then Ok(result.db.(sessions := result.db.sessions[session := result.db.logins[telegram]])) else result
  }

  /** The refusals of rotate_recovery_owner_transaction, in order. */
  function RotationRefusal(db: Registry, c: Context, current: int, target: int, confirmed: Id): Option<Error> {
    if current == target then Some(SameIdentity)
    else if current !in db.logins then Some(CurrentMissing)
    else if target !in db.logins then Some(TargetMissing)
    else if db.logins[target] != confirmed then Some(ConfirmationMismatch)
    else
      var owner := db.logins[current];
      if owner == confirmed then Some(SameUser)
      else if owner !in db.users || confirmed !in db.users then Some(UserMissing)
      else if !IsOwner(db, owner) || OwnerOtherThan(db, owner) then Some(NotTheOwner)
      else if db.users[owner].access != Approved then Some(OwnerNotApproved)
      else if confirmed in c.holders then Some(TargetHolds)
      else None
  }

  /** rotate_recovery_owner_transaction */
  function Rotate(db: Registry, c: Context, current: int, target: int, confirmed: Id): Outcome {
    var refusal := RotationRefusal(db, c, current, target, confirmed);
    if refusal.Some? then Failed(refusal.value)
    else
      var owner := db.logins[current];
      var after := Rotated(db, c, owner, confirmed);
      if OwnerOtherThan(after, confirmed) || !IsOwner(after, confirmed) then Failed(VerificationFailed) else Ok(after)
  }

  /** The new owner is approved, or its approval completed. */
  function Admitted(db: Registry, c: Context, owner: Id, confirmed: Id): Registry
    requires confirmed in db.users
  {
    if db.users[confirmed].access != Approved then Transition(db, confirmed, owner, Approved, c.now)
    else FillApproval(db, confirmed, owner, c.now)
  }

  function Rotated(db: Registry, c: Context, owner: Id, confirmed: Id): Registry
    requires owner in db.users && confirmed in db.users
  {
    var db2 := Admitted(SetRole(db, owner, owner, Admin), c, owner, confirmed);
    Revoke(SetRole(Resolve(db2, confirmed, true, owner), confirmed, owner, Owner), {owner, confirmed})
  }

  // ----- Commit -----

  /** The deferred user trigger: whoever changed and is no longer eligible holds nothing. */
  predicate CommitAccepted(db: Registry, db': Registry, holders: set<Id>) {
    forall u :: u in db.users && u in db'.users && u in holders
                && (db.users[u].role != db'.users[u].role || db.users[u].access != db'.users[u].access)
                ==> Eligible(Standing(db'.users[u].role, db'.users[u].access))
  }

  datatype Request =
    | AskLogin(telegram: int, newcomer: Id, session: Id)
    | AskAccess(user: Id)
    | AskUpdateAccess(actor: Id, target: Id, access: Access)
    | AskDecide(actor: Id, target: Id, verdict: Verdict)
    | AskUpdateRole(actor: Id, target: Id, role: Role)
    | AskReset(actor: Id, target: Id, telegram: int)
    | AskRotate(current: int, target: int, confirmed: Id)

  function Body(db: Registry, c: Context, r: Request): Outcome {
    match r
    case AskLogin(tg, newcomer, session) => Login(db, c, tg, newcomer, session)
    case AskAccess(u) => RequestAccess(db, c, u)
    case AskUpdateAccess(a, t, access) => UpdateAccess(db, c, a, t, access)
    case AskDecide(a, t, verdict) => Decide(db, c, a, t, verdict)
    case AskUpdateRole(a, t, role) => UpdateRole(db, c, a, t, role)
    case AskReset(a, t, tg) => Reset(db, c, a, t, tg)
    case AskRotate(current, target, confirmed) => Rotate(db, c, current, target, confirmed)
  }

  /** uuid4: a created user or session never takes an id already used. */
  predicate Distinct(db: Registry, r: Request) {
    r.AskLogin? ==> r.newcomer !in db.users && r.session !in db.sessions
  }

  /** One transaction: a failed body or a failed commit changes nothing. */
  function Exec(db: Registry, c: Context, r: Request): Registry {
    var result := Body(db, c, r);
    if Distinct(db, r) && result.Ok? && CommitAccepted(db, result.db, c.holders) then result.db else db
  }

  /** What the caller is told. */
  function Answer(db: Registry, c: Context, r: Request): Option<Error> {
    var result := Body(db, c, r);
    if result.Failed? then Some(result.error)
    else if CommitAccepted(db, result.db, c.holders) then None
    else Some(CommitRefused)
  }

  // ----- The invariant -----

  /** The events about one user lead, link by link, from a first value to the current one. */
  predicate Chain<T(==)>(log: seq<Event<T>>, user: Id, first: T, current: T) {
    if |log| == 0 then first == current
    else
      var e := log[|log| - 1];
      if e.target == user then e.after == current && e.before != e.after && Chain(log[..|log| - 1], user, first, e.before)
      else Chain(log[..|log| - 1], user, first, current)
  }

  /** Both logs explain the user's values from those of a new user. */
  predicate Explained(db: Registry, user: Id)
    requires user in db.users
  {
    var u := db.users[user];
    || (Chain(db.accessLog, user, Pending, u.access) && Chain(db.roleLog, user, Engineer, u.role))
    || (Chain(db.accessLog, user, Approved, u.access) && Chain(db.roleLog, user, Owner, u.role))
  }

  predicate NoEventsAbout<T(==)>(log: seq<Event<T>>, user: Id) {
    forall k :: 0 <= k < |log| ==> log[k].target != user
  }

  predicate HasLogin(db: Registry, user: Id) {
    exists tg :: tg in db.logins && db.logins[tg] == user
  }

  /** Every primitive keeps this part by itself. */
  predicate CoreOk(db: Registry) {
    && (forall tg :: tg in db.logins ==> db.logins[tg] in db.users)
    && (forall tg, tg2 :: tg in db.logins && tg2 in db.logins && tg != tg2 ==> db.logins[tg] != db.logins[tg2])
    && (forall u :: u in db.users ==> Explained(db, u))
    && (forall k :: 0 <= k < |db.accessLog| ==> db.accessLog[k].target in db.users)
    && (forall k :: 0 <= k < |db.roleLog| ==> db.roleLog[k].target in db.users)
  }

  /** At most one owner, who is approved; a pending request only for a pending user. */
  predicate StandingsOk(db: Registry) {
    && (forall u, v :: u in db.users && v in db.users && IsOwner(db, u) && IsOwner(db, v) ==> u == v)
    && (forall u :: u in db.users && db.users[u].role == Owner ==> db.users[u].access == Approved)
    && (forall u :: u in db.pending ==> u in db.users && db.users[u].access == Pending)
  }

  /** A session that is not revoked belongs to a user with a login. */
  predicate SessionsOk(db: Registry) {
    forall s :: s in db.sessions ==> HasLogin(db, db.sessions[s])
  }

  predicate RegistryOk(db: Registry) {
    CoreOk(db) && StandingsOk(db)
  }

  predicate HasOwner(db: Registry) {
    exists u :: u in db.users && IsOwner(db, u)
  }

  // ----- Primitives keep the core -----

  lemma ChainSnoc<T>(log: seq<Event<T>>, e: Event<T>, user: Id, first: T, current: T)
    requires Chain(log, user, first, current)
    requires e.target == user ==> e.before == current && e.before != e.after
    ensures Chain(log + [e], user, first, if e.target == user then e.after else current)
  {
    assert (log + [e])[..|log|] == log;
  }

  /** Writing one event and the matching column keeps every user's history. */
  lemma TransitionCore(db: Registry, user: Id, actor: Id, access: Access, now: int)
    requires CoreOk(db) && user in db.users
    ensures CoreOk(Transition(db, user, actor, access, now))
  {
    var u, db' := db.users[user], Transition(db, user, actor, access, now);
    if u.access != access {
      var e := Event(actor, user, u.access, access);
      forall v | v in db'.users ensures Explained(db', v) {
        assert Explained(db, v);
        var w := db.users[v];
        if Chain(db.accessLog, v, Pending, w.access) && Chain(db.roleLog, v, Engineer, w.role) {
          ChainSnoc(db.accessLog, e, v, Pending, w.access);
        } else {
          ChainSnoc(db.accessLog, e, v, Approved, w.access);
        }
      }
    }
  }

  lemma SetRoleCore(db: Registry, user: Id, actor: Id, role: Role)
    requires CoreOk(db) && user in db.users
    ensures CoreOk(SetRole(db, user, actor, role))
  {
    var u, db' := db.users[user], SetRole(db, user, actor, role);
    if u.role != role {
      var e := Event(actor, user, u.role, role);
      forall v | v in db'.users ensures Explained(db', v) {
        assert Explained(db, v);
        var w := db.users[v];
        if Chain(db.accessLog, v, Pending, w.access) && Chain(db.roleLog, v, Engineer, w.role) {
          ChainSnoc(db.roleLog, e, v, Engineer, w.role);
        } else {
          ChainSnoc(db.roleLog, e, v, Owner, w.role);
        }
      }
    }
  }

  /** Columns outside the audit logs do not matter to the core. */
  lemma SameCore(db: Registry, db': Registry)
    requires CoreOk(db) && db'.users.Keys == db.users.Keys && db'.accessLog == db.accessLog && db'.roleLog == db.roleLog
    requires forall u :: u in db.users ==> db'.users[u].role == db.users[u].role && db'.users[u].access == db.users[u].access
    requires forall tg :: tg in db'.logins ==> tg in db.logins && db'.logins[tg] == db.logins[tg]
    ensures CoreOk(db')
  {
    forall u | u in db'.users ensures Explained(db', u) {
      assert Explained(db, u);
    }
  }

  lemma {:induction false} NoEventsChain<T>(log: seq<Event<T>>, user: Id, value: T)
    requires NoEventsAbout(log, user)
    ensures Chain(log, user, value, value)
  {
    if |log| != 0 {
      NoEventsChain(log[..|log| - 1], user, value);
    }
  }

  lemma NewcomerCore(db: Registry, telegram: int, newcomer: Id, user: User)
    requires CoreOk(db) && telegram !in db.logins && newcomer !in db.users
    requires (user.role == Owner && user.access == Approved) || (user.role == Engineer && user.access == Pending)
    ensures CoreOk(db.(users := db.users[newcomer := user], logins := db.logins[telegram := newcomer]))
  {
    var db' := db.(users := db.users[newcomer := user], logins := db.logins[telegram := newcomer]);
    NoEventsChain(db.accessLog, newcomer, user.access);
    NoEventsChain(db.roleLog, newcomer, user.role);
    forall u | u in db'.users ensures Explained(db', u) {
      assert u != newcomer ==> Explained(db, u);
    }
  }

  // ----- Operations keep the registry -----

  /** Changing one user that neither was nor becomes the owner. */
  lemma OneUserChanged(db: Registry, db': Registry, user: Id)
    requires StandingsOk(db) && user in db.users && db'.users.Keys == db.users.Keys
    requires forall u :: u in db.users && u != user ==> db'.users[u] == db.users[u]
    requires db.users[user].role != Owner && db'.users[user].role != Owner
    requires forall u :: u != user ==> (u in db'.pending <==> u in db.pending)
    requires user in db'.pending ==> db'.users[user].access == Pending
    ensures StandingsOk(db') && (HasOwner(db) ==> HasOwner(db'))
  {
    assert forall u :: u in db.users ==> IsOwner(db', u) == IsOwner(db, u);
  }

  lemma UpdateAccessKeeps(db: Registry, c: Context, actor: Id, target: Id, access: Access)
    requires RegistryOk(db) && UpdateAccess(db, c, actor, target, access).Ok?
    ensures var db' := UpdateAccess(db, c, actor, target, access).db; RegistryOk(db') && (HasOwner(db) ==> HasOwner(db'))
  {
    var db1, db' := Transition(db, target, actor, access, c.now), UpdateAccess(db, c, actor, target, access).db;
    if access != db.users[target].access {
      TransitionCore(db, target, actor, access, c.now);
      SameCore(db1, db');
      OneUserChanged(db, db', target);
    }
  }

  lemma DecideKeeps(db: Registry, c: Context, actor: Id, target: Id, verdict: Verdict)
    requires RegistryOk(db) && Decide(db, c, actor, target, verdict).Ok?
    ensures var db' := Decide(db, c, actor, target, verdict).db; RegistryOk(db') && (HasOwner(db) ==> HasOwner(db'))
  {
    var access := if verdict == Approve then Approved else Rejected;
    TransitionCore(db, target, actor, access, c.now);
    var db' := Decide(db, c, actor, target, verdict).db;
    SameCore(Transition(db, target, actor, access, c.now), db');
    OneUserChanged(db, db', target);
  }

  lemma UpdateRoleKeeps(db: Registry, c: Context, actor: Id, target: Id, role: Role)
    requires RegistryOk(db) && UpdateRole(db, c, actor, target, role).Ok?
    ensures var db' := UpdateRole(db, c, actor, target, role).db; RegistryOk(db') && (HasOwner(db) ==> HasOwner(db'))
  {
    if role != db.users[target].role {
      SetRoleCore(db, target, actor, role);
      OneUserChanged(db, SetRole(db, target, actor, role), target);
    }
  }

  lemma RequestAccessKeeps(db: Registry, c: Context, user: Id)
    requires RegistryOk(db) && RequestAccess(db, c, user).Ok?
    ensures var db' := RequestAccess(db, c, user).db; RegistryOk(db') && (HasOwner(db) ==> HasOwner(db'))
  {
    TransitionCore(db, user, user, Pending, c.now);
    var db' := RequestAccess(db, c, user).db;
    SameCore(Transition(db, user, user, Pending, c.now), db');
    OneUserChanged(db, db', user);
  }

  lemma DetachedCore(db: Registry, user: Id)
    requires CoreOk(db)
    ensures CoreOk(Detached(db, user)) && Detached(db, user).users == db.users && Detached(db, user).logins == db.logins
  {
    SameCore(db, Detached(db, user));
  }

  lemma ResetCore(db: Registry, c: Context, actor: Id, target: Id, telegram: int)
    requires CoreOk(db) && Reset(db, c, actor, target, telegram).Ok?
    ensures CoreOk(Reset(db, c, actor, target, telegram).db)
  {
    var db0 := Detached(db, target);
    DetachedCore(db, target);
    TransitionCore(db0, target, actor, Blocked, c.now);
    var db1 := Transition(db0, target, actor, Blocked, c.now);
    TransitionUsers(db0, target, actor, Blocked, c.now);
    SetRoleCore(db1, target, actor, Engineer);
    var db2 := SetRole(db1, target, actor, Engineer);
    SameCore(db2, db2.(logins := db2.logins - {telegram}));
  }

  lemma ResetStandings(db: Registry, c: Context, actor: Id, target: Id, telegram: int)
    requires StandingsOk(db) && Reset(db, c, actor, target, telegram).Ok?
    ensures var db' := Reset(db, c, actor, target, telegram).db; StandingsOk(db') && (HasOwner(db) ==> HasOwner(db'))
  {
    ResetColumns(db, c, actor, target, telegram);
    OneUserChanged(db, Reset(db, c, actor, target, telegram).db, target);
  }

  lemma ResetKeeps(db: Registry, c: Context, actor: Id, target: Id, telegram: int)
    requires RegistryOk(db) && Reset(db, c, actor, target, telegram).Ok?
    ensures var db' := Reset(db, c, actor, target, telegram).db; RegistryOk(db') && (HasOwner(db) ==> HasOwner(db'))
  {
    ResetCore(db, c, actor, target, telegram);
    ResetStandings(db, c, actor, target, telegram);
  }

  lemma ApprovalCore(db: Registry, c: Context, user: Id)
    requires CoreOk(db) && user in db.users
    ensures CoreOk(ReconcileApproval(db, c, user))
  {
    TransitionCore(db, user, user, Approved, c.now);
    if db.users[user].access == Approved {
      SameCore(db, ReconcileApproval(db, c, user));
    }
  }

  lemma ReconcileCore(db: Registry, c: Context, user: Id)
    requires CoreOk(db) && user in db.users && Reconcile(db, c, user).Ok?
    ensures CoreOk(Reconcile(db, c, user).db)
  {
    SetRoleCore(db, user, user, Owner);
    var db1 := SetRole(db, user, user, Owner);
    ApprovalCore(db1, c, user);
    var db2 := ReconcileApproval(db1, c, user);
    SameCore(db2, Resolve(db2, user, true, user));
  }

  lemma ReconciledUsers(db: Registry, c: Context, user: Id)
    requires user in db.users && Reconcile(db, c, user).Ok?
    ensures var db' := Reconcile(db, c, user).db;
            && db'.users.Keys == db.users.Keys && db'.pending == db.pending - {user}
            && (forall v :: v in db.users && v != user ==> db'.users[v] == db.users[v])
            && db'.users[user].role == Owner && db'.users[user].access == Approved
            && db'.logins == db.logins && db'.sessions == db.sessions && db'.notices == db.notices
  {
    if !(db.users[user].role == Owner && db.users[user].access == Approved && db.users[user].approvedAt.Some?
         && db.users[user].approvedBy.Some? && user !in db.pending) {
      var db1 := SetRole(db, user, user, Owner);
      SetRoleUsers(db, user, user, Owner);
      ApprovalUsers(db1, c, user);
      ResolveColumns(ReconcileApproval(db1, c, user), user, true, user);
    }
  }

  lemma ApprovalUsers(db: Registry, c: Context, user: Id)
    requires user in db.users
    ensures var db' := ReconcileApproval(db, c, user);
            && db'.users.Keys == db.users.Keys
            && (forall v :: v in db.users && v != user ==> db'.users[v] == db.users[v])
            && db'.users[user].role == db.users[user].role && db'.users[user].access == Approved
            && db'.logins == db.logins && db'.pending == db.pending && db'.sessions == db.sessions && db'.notices == db.notices
  {
    TransitionUsers(db, user, user, Approved, c.now);
  }

  lemma TransitionUsers(db: Registry, user: Id, actor: Id, access: Access, now: int)
    requires user in db.users
    ensures var db' := Transition(db, user, actor, access, now);
            && db'.users.Keys == db.users.Keys
            && (forall v :: v in db.users && v != user ==> db'.users[v] == db.users[v])
            && db'.users[user].role == db.users[user].role && db'.users[user].access == access
            && db'.logins == db.logins && db'.pending == db.pending && db'.sessions == db.sessions && db'.notices == db.notices
  {
  }

  lemma ResolveColumns(db: Registry, user: Id, approved: bool, decider: Id)
    ensures var db' := Resolve(db, user, approved, decider);
            && db'.users == db.users && db'.pending == db.pending - {user}
            && db'.logins == db.logins && db'.sessions == db.sessions && db'.notices == db.notices
  {
  }

  /** What a reset does to every column. */
  lemma ResetColumns(db: Registry, c: Context, actor: Id, target: Id, telegram: int)
    requires Reset(db, c, actor, target, telegram).Ok?
    ensures var db' := Reset(db, c, actor, target, telegram).db;
            && db'.users.Keys == db.users.Keys
            && (forall v :: v in db.users && v != target ==> db'.users[v] == db.users[v])
            && db'.users[target].role == Engineer && db'.users[target].access == Blocked
            && db'.logins == db.logins - {telegram} && db'.pending == db.pending - {target}
            && db'.sessions == Revoke(db, {target}).sessions && db'.notices == WithdrawNotice(db, target).notices
  {
    var db1 := Detached(db, target);
    assert db1.users == db.users && db1.logins == db.logins && db1.pending == db.pending - {target};
    assert db1.sessions == Revoke(db, {target}).sessions && db1.notices == WithdrawNotice(db, target).notices;
    var db2 := Transition(db1, target, actor, Blocked, c.now);
    TransitionUsers(db1, target, actor, Blocked, c.now);
    SetRoleUsers(db2, target, actor, Engineer);
  }

  lemma ReconcileStandings(db: Registry, c: Context, user: Id)
    requires StandingsOk(db) && user in db.users && Reconcile(db, c, user).Ok?
    ensures StandingsOk(Reconcile(db, c, user).db) && IsOwner(Reconcile(db, c, user).db, user)
  {
    ReconciledUsers(db, c, user);
    if db.users[user].role != Owner {
      assert !OwnerOtherThan(db, user);
    }
    assert forall v :: v in db.users && v != user ==> !IsOwner(db, v);
  }

  lemma {:induction false} ReconcileKeeps(db: Registry, c: Context, user: Id)
    requires RegistryOk(db) && user in db.users && Reconcile(db, c, user).Ok?
    ensures var db' := Reconcile(db, c, user).db; RegistryOk(db') && IsOwner(db', user)
  {
    ReconcileCore(db, c, user);
    ReconcileStandings(db, c, user);
  }

  lemma NewcomerStandings(db: Registry, telegram: int, newcomer: Id, user: User)
    requires StandingsOk(db) && newcomer !in db.users
    requires (user.role == Owner && user.access == Approved && !HasOwner(db)) || user.role == Engineer
    ensures var db' := db.(users := db.users[newcomer := user], logins := db.logins[telegram := newcomer]);
            StandingsOk(db') && (HasOwner(db) ==> HasOwner(db'))
  {
    var db' := db.(users := db.users[newcomer := user], logins := db.logins[telegram := newcomer]);
    assert forall u :: u in db.users ==> IsOwner(db', u) == IsOwner(db, u);
  }

  lemma UpsertKeeps(db: Registry, c: Context, telegram: int, newcomer: Id)
    requires RegistryOk(db) && newcomer !in db.users && Upsert(db, c, telegram, newcomer).Ok?
    ensures var db' := Upsert(db, c, telegram, newcomer).db; RegistryOk(db') && (HasOwner(db) ==> HasOwner(db'))
  {
    var db' := Upsert(db, c, telegram, newcomer).db;
    if telegram !in db.logins {
      NewcomerCore(db, telegram, newcomer, db'.users[newcomer]);
      NewcomerStandings(db, telegram, newcomer, db'.users[newcomer]);
    } else if c.recovery == Some(telegram) {
      ReconcileKeeps(db, c, db.logins[telegram]);
    }
  }

  lemma LoginKeeps(db: Registry, c: Context, telegram: int, newcomer: Id, session: Id)
    requires RegistryOk(db) && newcomer !in db.users && Login(db, c, telegram, newcomer, session).Ok?
    ensures var db' := Login(db, c, telegram, newcomer, session).db; RegistryOk(db') && (HasOwner(db) ==> HasOwner(db'))
  {
    UpsertKeeps(db, c, telegram, newcomer);
    var db1, db' := Upsert(db, c, telegram, newcomer).db, Login(db, c, telegram, newcomer, session).db;
    SameCore(db1, db');
    assert forall u :: u in db1.users ==> IsOwner(db', u) == IsOwner(db1, u);
  }

  lemma RotateCore(db: Registry, c: Context, owner: Id, confirmed: Id)
    requires CoreOk(db) && owner in db.users && confirmed in db.users
    ensures CoreOk(Rotated(db, c, owner, confirmed))
  {
    SetRoleCore(db, owner, owner, Admin);
    var db1 := SetRole(db, owner, owner, Admin);
    TransitionCore(db1, confirmed, owner, Approved, c.now);
    var db2 := Admitted(db1, c, owner, confirmed);
    if db1.users[confirmed].access == Approved {
      SameCore(db1, db2);
    }
    var db3 := Resolve(db2, confirmed, true, owner);
    SameCore(db2, db3);
    SetRoleCore(db3, confirmed, owner, Owner);
    SameCore(SetRole(db3, confirmed, owner, Owner), Rotated(db, c, owner, confirmed));
  }

  /** What a rotation does to the two users, and to nobody else. */
  lemma RotatedUsers(db: Registry, c: Context, owner: Id, confirmed: Id)
    requires owner in db.users && confirmed in db.users && owner != confirmed
    ensures var db' := Rotated(db, c, owner, confirmed);
            && db'.users.Keys == db.users.Keys && db'.logins == db.logins && db'.pending == db.pending - {confirmed}
            && (forall v :: v in db.users && v != confirmed && v != owner ==> db'.users[v] == db.users[v])
            && db'.users[owner] == db.users[owner].(role := Admin)
            && db'.users[confirmed].role == Owner && db'.users[confirmed].access == Approved
  {
    var db1 := SetRole(db, owner, owner, Admin);
    SetRoleUsers(db, owner, owner, Admin);
    var db2 := Admitted(db1, c, owner, confirmed);
    AdmittedUsers(db1, c, owner, confirmed);
    var db3 := Resolve(db2, confirmed, true, owner);
    assert db3.users == db2.users && db3.logins == db2.logins && db3.pending == db2.pending - {confirmed};
    SetRoleUsers(db3, confirmed, owner, Owner);
  }

  lemma SetRoleUsers(db: Registry, user: Id, actor: Id, role: Role)
    requires user in db.users
    ensures var db' := SetRole(db, user, actor, role);
            && db'.users == db.users[user := db.users[user].(role := role)]
            && db'.logins == db.logins && db'.pending == db.pending && db'.sessions == db.sessions && db'.notices == db.notices
  {
  }

  lemma AdmittedUsers(db: Registry, c: Context, owner: Id, confirmed: Id)
    requires confirmed in db.users
    ensures var db' := Admitted(db, c, owner, confirmed);
            && db'.users.Keys == db.users.Keys && db'.logins == db.logins && db'.pending == db.pending
            && (forall v :: v in db.users && v != confirmed ==> db'.users[v] == db.users[v])
            && db'.users[confirmed].access == Approved && db'.users[confirmed].role == db.users[confirmed].role
  {
  }

  lemma RotateStandings(db: Registry, c: Context, owner: Id, confirmed: Id)
    requires StandingsOk(db) && owner in db.users && confirmed in db.users && owner != confirmed
    requires IsOwner(db, owner) && !OwnerOtherThan(db, owner)
    ensures var db' := Rotated(db, c, owner, confirmed);
            StandingsOk(db') && IsOwner(db', confirmed) && !OwnerOtherThan(db', confirmed)
  {
    RotatedUsers(db, c, owner, confirmed);
    var db' := Rotated(db, c, owner, confirmed);
    assert forall v :: v in db'.users && IsOwner(db', v) ==> v == confirmed;
  }

  /** Rotation moves the OWNER role to the confirmed user; its closing verification never fails. */
  lemma RotateKeeps(db: Registry, c: Context, current: int, target: int, confirmed: Id)
    requires RegistryOk(db)
    ensures Rotate(db, c, current, target, confirmed).Ok? <==> RotationRefusal(db, c, current, target, confirmed).None?
    ensures Rotate(db, c, current, target, confirmed).Ok? ==>
              var db' := Rotate(db, c, current, target, confirmed).db;
              RegistryOk(db') && IsOwner(db', confirmed) && HasOwner(db')
  {
    if RotationRefusal(db, c, current, target, confirmed).None? {
      RotateCore(db, c, db.logins[current], confirmed);
      RotateStandings(db, c, db.logins[current], confirmed);
    }
  }

  /** Every transaction keeps the registry in order, and an owner once there stays there. */
  lemma ExecKeeps(db: Registry, c: Context, r: Request)
    requires RegistryOk(db)
    ensures RegistryOk(Exec(db, c, r)) && (HasOwner(db) ==> HasOwner(Exec(db, c, r)))
  {
    if Distinct(db, r) && Body(db, c, r).Ok? {
      match r
      case AskLogin(tg, newcomer, session) => LoginKeeps(db, c, tg, newcomer, session);
      case AskAccess(u) => RequestAccessKeeps(db, c, u);
      case AskUpdateAccess(a, t, access) => UpdateAccessKeeps(db, c, a, t, access);
      case AskDecide(a, t, verdict) => DecideKeeps(db, c, a, t, verdict);
      case AskUpdateRole(a, t, role) => UpdateRoleKeeps(db, c, a, t, role);
      case AskReset(a, t, tg) => ResetKeeps(db, c, a, t, tg);
      case AskRotate(current, target, confirmed) => RotateKeeps(db, c, current, target, confirmed);
    }
  }

  const EMPTY := Registry(map[], map[], {}, [], [], [], map[], map[])

  function Run(steps: seq<(Context, Request)>): Registry {
    if |steps| == 0 then EMPTY
    else Exec(Run(steps[..|steps| - 1]), steps[|steps| - 1].0, steps[|steps| - 1].1)
  }

  /** After every run: at most one OWNER, who is APPROVED; a pending request only for a PENDING user; every
      user's access and role events lead link by link to the current values; and once some earlier state had
      an OWNER, there is exactly one. */
  lemma {:induction false} RunsKeep(steps: seq<(Context, Request)>, n: nat)
    requires n <= |steps|
    ensures RegistryOk(Run(steps))
    ensures HasOwner(Run(steps[..n])) ==> HasOwner(Run(steps))
    decreases |steps|
  {
    if |steps| == 0 {
      assert steps[..n] == steps;
    } else {
      var front, last := steps[..|steps| - 1], steps[|steps| - 1];
      if n == |steps| {
        RunsKeep(front, 0);
        assert steps[..n] == steps;
      } else {
        RunsKeep(front, n);
        assert front[..n] == steps[..n];
      }
      ExecKeeps(Run(front), last.0, last.1);
    }
  }
}
