/** What each identity request does when it succeeds, when it succeeds, and what its refusals say: stated on the rows
    of the users concerned. */
module IdentityEffects {
  import opened Journal
  import opened Policy
  import opened Identity
  import opened Footprints

  // ----- Effects -----

  /** The row after a change of access: approval fields are set by an approval and cleared by anything else. */
  ghost predicate AccessSet(u: User, v: User, access: Access, approver: Id, now: int) {
    v.role == u.role && v.access == access
    && if u.access == access then v == u
       else if access == Approved then v.approvedAt == Some(now) && v.approvedBy == Some(approver)
       else v.approvedAt.None? && v.approvedBy.None?
  }

  /** The log gained exactly the event of this change, or nothing if there was none. */
  ghost predicate Logged<T>(log: seq<Event<T>>, log': seq<Event<T>>, actor: Id, user: Id, before: T, after: T) {
    if before == after then log' == log else log' == log + [Event(actor, user, before, after)]
  }

  ghost predicate SessionsEnded(db: Registry, db': Registry, users: set<Id>) {
    forall s :: (s in db'.sessions <==> s in db.sessions && db.sessions[s] !in users)
                && (s in db'.sessions && s in db.sessions ==> db'.sessions[s] == db.sessions[s])
  }

  /** A pending request is decided; otherwise nothing is. */
  ghost predicate Decided(db: Registry, db': Registry, user: Id, approved: bool, decider: Id) {
    && user !in db'.pending
    && db'.decided == if user in db.pending then db.decided + [Decision(user, approved, decider)] else db.decided
  }

  ghost predicate UpdatedAccess(db: Registry, c: Context, actor: Id, target: Id, access: Access, db': Registry) {
    && target in db.users && target in db'.users
    && AccessSet(db.users[target], db'.users[target], access, actor, c.now)
    && Logged(db.accessLog, db'.accessLog, actor, target, db.users[target].access, access)
    && db'.roleLog == db.roleLog && db'.decided == db.decided && db'.logins == db.logins && db'.pending == db.pending
    && (if access == Blocked && db.users[target].access != Blocked then SessionsEnded(db, db', {target})
        else db'.sessions == db.sessions)
  }

  ghost predicate DecidedRequest(db: Registry, c: Context, actor: Id, target: Id, verdict: Verdict, db': Registry) {
    var access := if verdict == Approve then Approved else Rejected;
    && target in db.users && target in db'.users && target in db.pending
    && AccessSet(db.users[target], db'.users[target], access, actor, c.now)
    && Logged(db.accessLog, db'.accessLog, actor, target, Pending, access)
    && Decided(db, db', target, verdict == Approve, actor)
    && db'.roleLog == db.roleLog && db'.logins == db.logins && db'.sessions == db.sessions
  }

  ghost predicate UpdatedRole(db: Registry, actor: Id, target: Id, role: Role, db': Registry) {
    && target in db.users && target in db'.users && db'.users[target] == db.users[target].(role := role)
    && Logged(db.roleLog, db'.roleLog, actor, target, db.users[target].role, role)
    && db'.accessLog == db.accessLog && db'.decided == db.decided && db'.logins == db.logins && db'.pending == db.pending
    && db'.sessions == db.sessions
  }

  ghost predicate RequestedAccess(db: Registry, c: Context, user: Id, db': Registry) {
    && user in db.users && user in db'.users && db'.users[user].access == Pending && user in db'.pending
    && AccessSet(db.users[user], db'.users[user], Pending, user, c.now)
    && Logged(db.accessLog, db'.accessLog, user, user, db.users[user].access, Pending)
    && db'.roleLog == db.roleLog && db'.decided == db.decided && db'.logins == db.logins && db'.sessions == db.sessions
    && user in db'.notices
    && (user in db.pending && user in db.notices ==> db'.notices[user] == db.notices[user])
    && (!(user in db.pending && user in db.notices) ==>
          db'.notices[user].status.Pending? && db'.notices[user].attempts == 0 && db'.notices[user].claim.None?
          && db'.notices[user].availableAt == c.now)
  }

  ghost predicate ResetAccount(db: Registry, actor: Id, target: Id, telegram: int, db': Registry) {
    && target in db.users && target in db'.users
    && db'.users[target].role == Engineer && db'.users[target].access == Blocked
    && (db.users[target].access != Blocked ==> db'.users[target].approvedAt.None? && db'.users[target].approvedBy.None?)
    && Logged(db.accessLog, db'.accessLog, actor, target, db.users[target].access, Blocked)
    && Logged(db.roleLog, db'.roleLog, actor, target, db.users[target].role, Engineer)
    && db'.decided == db.decided && target !in db'.pending && telegram !in db'.logins
    && (forall tg :: tg != telegram ==> (tg in db'.logins <==> tg in db.logins) && (tg in db.logins ==> db'.logins[tg] == db.logins[tg]))
    && SessionsEnded(db, db', {target})
  }

  /** The recovery user is the approved owner with nothing pending. */
  ghost predicate InOrder(db: Registry, user: Id) {
    && user in db.users && db.users[user].role == Owner && db.users[user].access == Approved
    && db.users[user].approvedAt.Some? && db.users[user].approvedBy.Some? && user !in db.pending
  }

  ghost predicate LoggedIn(db: Registry, c: Context, telegram: int, newcomer: Id, session: Id, db': Registry) {
    && telegram in db'.logins && session in db'.sessions && db'.sessions[session] == db'.logins[telegram]
    && (forall s :: s != session ==> (s in db'.sessions <==> s in db.sessions) && (s in db.sessions ==> db'.sessions[s] == db.sessions[s]))
    && (telegram in db.logins ==> db'.logins == db.logins)
    && (telegram !in db.logins ==>
          && db'.logins == db.logins[telegram := newcomer] && newcomer in db'.users
          && db'.accessLog == db.accessLog && db'.roleLog == db.roleLog
          && (if c.recovery == Some(telegram)
              then db'.users[newcomer].role == Owner && db'.users[newcomer].access == Approved
                   && db'.users[newcomer].approvedAt == Some(c.now)
              else db'.users[newcomer] == User(Engineer, Pending, None, None)))
    && (telegram in db.logins && db.logins[telegram] in db.users ==>
          Recovered(db, c, telegram, db.logins[telegram], db'))
  }

  /** A known login: the recovery identity ends in order, any other user stays as it is. */
  ghost predicate Recovered(db: Registry, c: Context, telegram: int, user: Id, db': Registry)
    requires user in db.users
  {
    if c.recovery == Some(telegram) then
      && InOrder(db', user)
      && (db.users[user].access == Approved && db.users[user].approvedAt.Some? && db.users[user].approvedBy.Some? ==>
            db'.users[user] == db.users[user].(role := Owner))
      && (!(db.users[user].access == Approved && db.users[user].approvedAt.Some? && db.users[user].approvedBy.Some?) ==>
            db'.users[user] == User(Owner, Approved, Some(c.now), Some(user)))
      && Logged(db.roleLog, db'.roleLog, user, user, db.users[user].role, Owner)
      && Logged(db.accessLog, db'.accessLog, user, user, db.users[user].access, Approved)
      && Decided(db, db', user, true, user)
    else db'.users == db.users && db'.roleLog == db.roleLog && db'.accessLog == db.accessLog && db'.decided == db.decided
         && db'.pending == db.pending
  }

  /** Approved now, or the approval it had with what was missing filled in. */
  ghost predicate Admission(u: User, v: User, c: Context, owner: Id) {
    && v.access == Approved
    && v.approvedAt == (if u.access == Approved && u.approvedAt.Some? then u.approvedAt else Some(c.now))
    && v.approvedBy == (if u.access == Approved && u.approvedBy.Some? then u.approvedBy else Some(owner))
  }

  ghost predicate RotatedOwner(db: Registry, c: Context, owner: Id, confirmed: Id, db': Registry) {
    && owner in db.users && confirmed in db.users && owner in db'.users && confirmed in db'.users
    && db'.users[owner] == db.users[owner].(role := Admin)
    && db'.users[confirmed].role == Owner && Admission(db.users[confirmed], db'.users[confirmed], c, owner)
    && db'.roleLog == db.roleLog + [Event(owner, owner, Owner, Admin)] + [Event(owner, confirmed, db.users[confirmed].role, Owner)]
    && Logged(db.accessLog, db'.accessLog, owner, confirmed, db.users[confirmed].access, Approved)
    && Decided(db, db', confirmed, true, owner) && db'.logins == db.logins && SessionsEnded(db, db', {owner, confirmed})
  }

  /** What a successful request leaves behind. */
  ghost predicate Achieves(db: Registry, c: Context, r: Request, db': Registry) {
    match r
    case AskLogin(tg, newcomer, session) => LoggedIn(db, c, tg, newcomer, session, db')
    case AskAccess(user) => RequestedAccess(db, c, user, db')
    case AskUpdateAccess(actor, target, access) => UpdatedAccess(db, c, actor, target, access, db')
    case AskDecide(actor, target, verdict) => DecidedRequest(db, c, actor, target, verdict, db')
    case AskUpdateRole(actor, target, role) => UpdatedRole(db, actor, target, role, db')
    case AskReset(actor, target, tg) => ResetAccount(db, actor, target, tg, db')
    case AskRotate(current, _, confirmed) => current in db.logins && RotatedOwner(db, c, db.logins[current], confirmed, db')
  }

  lemma TransitionAchieves(db: Registry, user: Id, actor: Id, access: Access, now: int)
    requires user in db.users
    ensures var db' := Transition(db, user, actor, access, now);
            && user in db'.users && AccessSet(db.users[user], db'.users[user], access, actor, now)
            && Logged(db.accessLog, db'.accessLog, actor, user, db.users[user].access, access)
            && db' == db.(users := db'.users, accessLog := db'.accessLog)
  {
  }

  lemma SetRoleAchieves(db: Registry, user: Id, actor: Id, role: Role)
    requires user in db.users
    ensures var db' := SetRole(db, user, actor, role);
            && db'.users == db.users[user := db.users[user].(role := role)]
            && Logged(db.roleLog, db'.roleLog, actor, user, db.users[user].role, role)
            && db' == db.(users := db'.users, roleLog := db'.roleLog)
  {
  }

  lemma ResolveAchieves(db: Registry, user: Id, approved: bool, decider: Id)
    ensures var db' := Resolve(db, user, approved, decider);
            Decided(db, db', user, approved, decider) && db' == db.(pending := db'.pending, decided := db'.decided)
  {
  }

  lemma RevokeAchieves(db: Registry, users: set<Id>)
    ensures SessionsEnded(db, Revoke(db, users), users) && Revoke(db, users) == db.(sessions := Revoke(db, users).sessions)
  {
  }

  lemma UpdateAccessAchieves(db: Registry, c: Context, actor: Id, target: Id, access: Access)
    requires UpdateAccess(db, c, actor, target, access).Ok?
    ensures UpdatedAccess(db, c, actor, target, access, UpdateAccess(db, c, actor, target, access).db)
  {
    TransitionAchieves(db, target, actor, access, c.now);
    RevokeAchieves(Transition(db, target, actor, access, c.now), {target});
  }

  lemma DecideAchieves(db: Registry, c: Context, actor: Id, target: Id, verdict: Verdict)
    requires Decide(db, c, actor, target, verdict).Ok?
    ensures DecidedRequest(db, c, actor, target, verdict, Decide(db, c, actor, target, verdict).db)
  {
    var access := if verdict == Approve then Approved else Rejected;
    TransitionAchieves(db, target, actor, access, c.now);
    ResolveAchieves(Transition(db, target, actor, access, c.now), target, verdict == Approve, actor);
  }

  lemma UpdateRoleAchieves(db: Registry, c: Context, actor: Id, target: Id, role: Role)
    requires UpdateRole(db, c, actor, target, role).Ok?
    ensures UpdatedRole(db, actor, target, role, UpdateRole(db, c, actor, target, role).db)
  {
    SetRoleAchieves(db, target, actor, role);
  }

  lemma RequestAchieves(db: Registry, c: Context, user: Id)
    requires RequestAccess(db, c, user).Ok?
    ensures RequestedAccess(db, c, user, RequestAccess(db, c, user).db)
  {
    TransitionAchieves(db, user, user, Pending, c.now);
  }

  lemma ResetAchieves(db: Registry, c: Context, actor: Id, target: Id, telegram: int)
    requires Reset(db, c, actor, target, telegram).Ok?
    ensures ResetAccount(db, actor, target, telegram, Reset(db, c, actor, target, telegram).db)
  {
    ResetColumns(db, c, actor, target, telegram);
    RevokeAchieves(db, {target});
    var db1 := Detached(db, target);
    assert db1.users == db.users && db1.accessLog == db.accessLog && db1.roleLog == db.roleLog && db1.decided == db.decided;
    TransitionAchieves(db1, target, actor, Blocked, c.now);
    SetRoleAchieves(Transition(db1, target, actor, Blocked, c.now), target, actor, Engineer);
  }

  lemma ReconcileAchieves(db: Registry, c: Context, user: Id)
    requires user in db.users && Reconcile(db, c, user).Ok?
    ensures var db' := Reconcile(db, c, user).db;
            && InOrder(db', user)
            && (db.users[user].access == Approved && db.users[user].approvedAt.Some? && db.users[user].approvedBy.Some? ==>
                  db'.users[user] == db.users[user].(role := Owner))
            && (!(db.users[user].access == Approved && db.users[user].approvedAt.Some? && db.users[user].approvedBy.Some?) ==>
                  db'.users[user] == User(Owner, Approved, Some(c.now), Some(user)))
            && Logged(db.roleLog, db'.roleLog, user, user, db.users[user].role, Owner)
            && Logged(db.accessLog, db'.accessLog, user, user, db.users[user].access, Approved)
            && Decided(db, db', user, true, user)
  {
    if !InOrder(db, user) {
      SetRoleAchieves(db, user, user, Owner);
      var db1 := SetRole(db, user, user, Owner);
      TransitionAchieves(db1, user, user, Approved, c.now);
      ResolveAchieves(ReconcileApproval(db1, c, user), user, true, user);
    }
  }

  lemma LoginAchieves(db: Registry, c: Context, telegram: int, newcomer: Id, session: Id)
    requires Distinct(db, AskLogin(telegram, newcomer, session)) && Login(db, c, telegram, newcomer, session).Ok?
    ensures LoggedIn(db, c, telegram, newcomer, session, Login(db, c, telegram, newcomer, session).db)
  {
    UpsertKeepsSessions(db, c, telegram, newcomer);
    if telegram in db.logins && db.logins[telegram] in db.users && c.recovery == Some(telegram) {
      ReconcileAchieves(db, c, db.logins[telegram]);
    }
  }

  lemma AdmittedAchieves(db: Registry, c: Context, owner: Id, confirmed: Id)
    requires confirmed in db.users
    ensures var db' := Admitted(db, c, owner, confirmed);
            && confirmed in db'.users && db'.users[confirmed].role == db.users[confirmed].role
            && Admission(db.users[confirmed], db'.users[confirmed], c, owner)
            && (forall u :: u in db.users && u != confirmed ==> u in db'.users && db'.users[u] == db.users[u])
            && Logged(db.accessLog, db'.accessLog, owner, confirmed, db.users[confirmed].access, Approved)
            && db' == db.(users := db'.users, accessLog := db'.accessLog)
  {
    TransitionAchieves(db, confirmed, owner, Approved, c.now);
  }

  lemma RotatedAchieves(db: Registry, c: Context, owner: Id, confirmed: Id)
    requires IsOwner(db, owner) && confirmed in db.users && confirmed != owner && !IsOwner(db, confirmed)
    ensures RotatedOwner(db, c, owner, confirmed, Rotated(db, c, owner, confirmed))
  {
    var db1 := SetRole(db, owner, owner, Admin);
    SetRoleAchieves(db, owner, owner, Admin);
    AdmittedAchieves(db1, c, owner, confirmed);
    var db2 := Admitted(db1, c, owner, confirmed);
    ResolveAchieves(db2, confirmed, true, owner);
    var db3 := Resolve(db2, confirmed, true, owner);
    SetRoleAchieves(db3, confirmed, owner, Owner);
    RevokeAchieves(SetRole(db3, confirmed, owner, Owner), {owner, confirmed});
  }

  /** Every request that succeeds achieves what it asks for, and logs it. */
  lemma BodyAchieves(db: Registry, c: Context, r: Request)
    requires Distinct(db, r) && Body(db, c, r).Ok?
    ensures Achieves(db, c, r, Body(db, c, r).db)
  {
    match r
    case AskLogin(tg, newcomer, session) => LoginAchieves(db, c, tg, newcomer, session);
    case AskAccess(user) => RequestAchieves(db, c, user);
    case AskUpdateAccess(actor, target, access) => UpdateAccessAchieves(db, c, actor, target, access);
    case AskDecide(actor, target, verdict) => DecideAchieves(db, c, actor, target, verdict);
    case AskUpdateRole(actor, target, role) => UpdateRoleAchieves(db, c, actor, target, role);
    case AskReset(actor, target, tg) => ResetAchieves(db, c, actor, target, tg);
    case AskRotate(current, target, confirmed) =>
      assert !OwnerOtherThan(db, db.logins[current]);
      RotatedAchieves(db, c, db.logins[current], confirmed);
  }

  // ----- Commit -----

  /** The user is new, keeps its standing, or has one that may hold equipment. */
  ghost predicate StaysFit(db: Registry, db': Registry, user: Id) {
    user in db.users && user in db'.users ==>
      || (db'.users[user].role == db.users[user].role && db'.users[user].access == db.users[user].access)
      || (db'.users[user].access == Approved && (db'.users[user].role == Engineer || db'.users[user].role == SeniorEngineer))
  }

  /** The deferred trigger lets a transaction through exactly if no user it is about holds equipment and is left with a
      changed standing that may not hold any; then the registry is what the request computed, and no error is answered. */
  lemma CommittedIff(db: Registry, c: Context, r: Request)
    requires Distinct(db, r) && Body(db, c, r).Ok?
    ensures if forall u :: u in Writes(db, r) && u in c.holders ==> StaysFit(db, Body(db, c, r).db, u)
            then Exec(db, c, r) == Body(db, c, r).db && Answer(db, c, r).None?
            else Exec(db, c, r) == db && Answer(db, c, r) == Some(CommitRefused)
  {
    BodyTouches(db, c, r);
    var db' := Body(db, c, r).db;
    forall u | u in db.users && u !in Writes(db, r) ensures u in db'.users && db'.users[u] == db.users[u] {
      assert SliceOf(db', u).row == SliceOf(db, u).row;
    }
  }
}
