/** When an identity request succeeds, and what each refusal says. */
module IdentityRefusals {
  import opened Journal
  import opened Policy
  import opened Identity

  predicate Manages(db: Registry, actor: Id) {
    actor in db.users && db.users[actor].access == Approved && (db.users[actor].role == Admin || db.users[actor].role == Owner)
  }

  predicate OwnerExists(db: Registry) {
    exists u :: u in db.users && db.users[u].role == Owner
  }

  predicate OtherOwner(db: Registry, user: Id) {
    exists u :: u in db.users && u != user && db.users[u].role == Owner
  }

  /** The owner and the recovery user cannot be managed. */
  predicate OutOfReach(db: Registry, c: Context, target: Id)
    requires target in db.users
  {
    db.users[target].role == Owner || (c.recovery.Some? && LoginOf(db, target, c.recovery.value))
  }

  /** Only the owner manages administrators. */
  predicate Outranked(db: Registry, actor: Id, target: Id)
    requires actor in db.users && target in db.users
  {
    db.users[target].role == Admin && db.users[actor].role != Owner
  }

  predicate RunsProcurement(role: Role) {
    role == Admin || role == Owner
  }

  /** A pair that may be managed at all. */
  predicate Manageable(db: Registry, c: Context, actor: Id, target: Id) {
    && Manages(db, actor) && target in db.users && actor != target
    && !OutOfReach(db, c, target) && !Outranked(db, actor, target)
  }

  predicate MayAssign(db: Registry, actor: Id, role: Role)
    requires actor in db.users
  {
    role == Engineer || role == SeniorEngineer || role == Manager || (role == Admin && db.users[actor].role == Owner)
  }

  predicate HasAnyLogin(db: Registry, user: Id) {
    exists tg :: tg in db.logins && db.logins[tg] == user
  }

  /** Exactly when a request succeeds. */
  predicate Grants(db: Registry, c: Context, r: Request) {
    match r
    case AskLogin(tg, _, _) =>
      c.recovery != Some(tg)
      || (if tg !in db.logins then !OwnerExists(db)
          else db.logins[tg] in db.users ==> Settled(db, db.logins[tg]) || !OtherOwner(db, db.logins[tg]))
    case AskAccess(user) => user in db.users && (db.users[user].access == Pending || db.users[user].access == Rejected)
    case AskUpdateAccess(actor, target, access) =>
      && Manages(db, actor) && target in db.users
      && (access != db.users[target].access ==>
            && ((db.users[target].access == Approved && access == Blocked) || (db.users[target].access == Blocked && access == Approved))
            && Manageable(db, c, actor, target)
            && (access == Blocked ==> target !in c.holders && !(RunsProcurement(db.users[target].role) && target in c.creating)))
    case AskDecide(actor, target, verdict) =>
      && verdict != StayPending && Manageable(db, c, actor, target)
      && db.users[target].access == Pending && target in db.pending
    case AskUpdateRole(actor, target, role) =>
      && Manageable(db, c, actor, target) && role != Owner && MayAssign(db, actor, role)
      && (role != db.users[target].role ==>
            && (role != Engineer && role != SeniorEngineer ==> target !in c.holders)
            && (RunsProcurement(db.users[target].role) && !RunsProcurement(role) ==> target !in c.creating))
    case AskReset(actor, target, tg) =>
      && LoginOf(db, target, tg) && Manages(db, actor) && target in db.users && actor != target
      && db.users[target].role != Owner && c.recovery != Some(tg) && !Outranked(db, actor, target)
      && target !in c.holders && target !in c.involved
    case AskRotate(current, target, confirmed) =>
      && current != target && current in db.logins && target in db.logins && db.logins[target] == confirmed
      && db.logins[current] != confirmed && db.logins[current] in db.users && confirmed in db.users
      && db.users[db.logins[current]].role == Owner && db.users[db.logins[current]].access == Approved
      && !OtherOwner(db, db.logins[current]) && confirmed !in c.holders
  }

  /** An approved owner with a complete approval and nothing pending. */
  predicate Settled(db: Registry, user: Id)
    requires user in db.users
  {
    && db.users[user].role == Owner && db.users[user].access == Approved
    && db.users[user].approvedAt.Some? && db.users[user].approvedBy.Some? && user !in db.pending
  }

  lemma PairIff(db: Registry, actor: Id, target: Id)
    ensures LockPair(db, actor, target).None? <==> Manages(db, actor) && target in db.users
    ensures LockPair(db, actor, target) == Some(Forbidden) <==> !Manages(db, actor)
  {
  }

  lemma LoginIff(db: Registry, c: Context, tg: int, newcomer: Id, session: Id)
    ensures Login(db, c, tg, newcomer, session).Ok? <==> Grants(db, c, AskLogin(tg, newcomer, session))
    ensures Login(db, c, tg, newcomer, session).Failed? ==> Login(db, c, tg, newcomer, session).error == OwnerConflict
  {
    assert (exists u :: u in db.users && IsOwner(db, u)) <==> OwnerExists(db);
    if tg in db.logins && db.logins[tg] in db.users {
      assert OwnerOtherThan(db, db.logins[tg]) <==> OtherOwner(db, db.logins[tg]);
    }
  }

  lemma RotateIff(db: Registry, c: Context, current: int, target: int, confirmed: Id)
    ensures Rotate(db, c, current, target, confirmed).Ok? <==> Grants(db, c, AskRotate(current, target, confirmed))
  {
    if RotationRefusal(db, c, current, target, confirmed).None? {
      var owner := db.logins[current];
      RotatedUsers(db, c, owner, confirmed);
      assert forall v :: v in db.users && v != owner ==> !IsOwner(db, v);
      assert Rotate(db, c, current, target, confirmed).Ok?;
    }
    if current in db.logins {
      assert OwnerOtherThan(db, db.logins[current]) <==> OtherOwner(db, db.logins[current]);
    }
  }

  /** A request succeeds exactly when the table grants it. */
  lemma SucceedsIff(db: Registry, c: Context, r: Request)
    ensures Body(db, c, r).Ok? <==> Grants(db, c, r)
  {
    match r
    case AskLogin(tg, newcomer, session) => LoginIff(db, c, tg, newcomer, session);
    case AskAccess(_) =>
    case AskUpdateAccess(actor, target, _) => PairIff(db, actor, target);
    case AskDecide(actor, target, _) => PairIff(db, actor, target);
    case AskUpdateRole(actor, target, _) => PairIff(db, actor, target);
    case AskReset(actor, target, tg) => PairIff(db, actor, target);
    case AskRotate(current, target, confirmed) => RotateIff(db, c, current, target, confirmed);
  }

  // ----- Refusals -----

  predicate Targeted(r: Request) {
    r.AskUpdateAccess? || r.AskDecide? || r.AskUpdateRole? || r.AskReset?
  }

  /** The actor may not manage, or not this target, or not assign this role. */
  predicate ForbiddenFor(db: Registry, r: Request)
    requires Targeted(r)
  {
    || !Manages(db, r.actor) || r.actor == r.target
    || (r.target in db.users && r.actor in db.users && Outranked(db, r.actor, r.target))
    || (r.AskUpdateRole? && (r.role == Owner || (r.actor in db.users && !MayAssign(db, r.actor, r.role))))
  }

  /** What each refusal says. */
  predicate Says(db: Registry, c: Context, r: Request, error: Error) {
    match error
    case Forbidden => Targeted(r) && ForbiddenFor(db, r)
    case NotFound =>
      (Targeted(r) && r.target !in db.users) || (r.AskReset? && !HasAnyLogin(db, r.target)) || (r.AskAccess? && r.user !in db.users)
    case InvalidTransition =>
      || (r.AskDecide? && (r.verdict == StayPending || (r.target in db.users && db.users[r.target].access != Pending)))
      || (r.AskUpdateAccess? && r.target in db.users
          && {db.users[r.target].access, r.access} != {Approved, Blocked} && db.users[r.target].access != r.access)
    case RecoveryInvariant =>
      Targeted(r) && r.target in db.users
      && (OutOfReach(db, c, r.target) || (r.AskReset? && c.recovery == Some(r.telegram)))
    case OutstandingCustody =>
      Targeted(r) && r.target in c.holders
      && (r.AskUpdateAccess? ==> r.access == Blocked) && (r.AskUpdateRole? ==> r.role != Engineer && r.role != SeniorEngineer)
    case ActiveProcurement =>
      || (r.AskUpdateAccess? && r.access == Blocked && r.target in db.users && RunsProcurement(db.users[r.target].role) && r.target in c.creating)
      || (r.AskUpdateRole? && r.target in db.users && RunsProcurement(db.users[r.target].role) && !RunsProcurement(r.role)
          && r.target in c.creating)
      || (r.AskReset? && r.target in c.involved)
    case NoPendingRequest => r.AskDecide? && r.target !in db.pending
    case AlreadyApproved => r.AskAccess? && r.user in db.users && db.users[r.user].access == Approved
    case AccessBlocked => r.AskAccess? && r.user in db.users && db.users[r.user].access == Blocked
    case OwnerConflict =>
      r.AskLogin? && c.recovery == Some(r.telegram)
      && (if r.telegram in db.logins then OtherOwner(db, db.logins[r.telegram]) else OwnerExists(db))
    case IdentityMismatch => r.AskReset? && !LoginOf(db, r.target, r.telegram)
    case SameIdentity => r.AskRotate? && r.current == r.target
    case CurrentMissing => r.AskRotate? && r.current !in db.logins
    case TargetMissing => r.AskRotate? && r.target !in db.logins
    case ConfirmationMismatch => r.AskRotate? && r.target in db.logins && db.logins[r.target] != r.confirmed
    case SameUser => r.AskRotate? && LoginOf(db, r.confirmed, r.current)
    case UserMissing =>
      r.AskRotate? && r.current in db.logins && (db.logins[r.current] !in db.users || r.confirmed !in db.users)
    case NotTheOwner =>
      r.AskRotate? && r.current in db.logins && db.logins[r.current] in db.users
      && (db.users[db.logins[r.current]].role != Owner || OtherOwner(db, db.logins[r.current]))
    case OwnerNotApproved =>
      r.AskRotate? && r.current in db.logins && db.logins[r.current] in db.users && db.users[db.logins[r.current]].access != Approved
    case TargetHolds => r.AskRotate? && r.confirmed in c.holders
    case CommitRefused => false
    case VerificationFailed => false
  }

  lemma PairSays(db: Registry, c: Context, r: Request)
    requires Targeted(r) && Body(db, c, r).Failed?
    ensures Says(db, c, r, Body(db, c, r).error)
  {
    PairIff(db, r.actor, r.target);
    match r
    case AskUpdateAccess(actor, target, access) => AccessSays(db, c, actor, target, access);
    case AskReset(actor, target, tg) => ResetSays(db, c, actor, target, tg);
    case _ =>
  }

  lemma AccessSays(db: Registry, c: Context, actor: Id, target: Id, access: Access)
    requires UpdateAccess(db, c, actor, target, access).Failed?
    ensures Says(db, c, AskUpdateAccess(actor, target, access), UpdateAccess(db, c, actor, target, access).error)
  {
    if target in db.users {
      assert {db.users[target].access, access} == {Approved, Blocked} ==>
               (db.users[target].access == Approved && access == Blocked) || (db.users[target].access == Blocked && access == Approved)
               || db.users[target].access == access by {
        assert db.users[target].access in {db.users[target].access, access} && access in {db.users[target].access, access};
      }
    }
  }

  lemma ResetSays(db: Registry, c: Context, actor: Id, target: Id, tg: int)
    requires Reset(db, c, actor, target, tg).Failed?
    ensures Says(db, c, AskReset(actor, target, tg), Reset(db, c, actor, target, tg).error)
  {
    PairIff(db, actor, target);
  }

  lemma RotateSays(db: Registry, c: Context, current: int, target: int, confirmed: Id)
    requires Rotate(db, c, current, target, confirmed).Failed?
    ensures Says(db, c, AskRotate(current, target, confirmed), Rotate(db, c, current, target, confirmed).error)
  {
    RotateIff(db, c, current, target, confirmed);
    if current in db.logins {
      assert OwnerOtherThan(db, db.logins[current]) <==> OtherOwner(db, db.logins[current]);
    }
    assert RotationRefusal(db, c, current, target, confirmed).Some?;
  }

  /** Every refusal says what it means; the closing verification of a rotation is never the reason. */
  lemma RefusalSays(db: Registry, c: Context, r: Request)
    requires Body(db, c, r).Failed?
    ensures Says(db, c, r, Body(db, c, r).error)
  {
    if Targeted(r) {
      PairSays(db, c, r);
    } else {
      match r
      case AskLogin(tg, newcomer, session) =>
        LoginIff(db, c, tg, newcomer, session);
        if tg in db.logins && db.logins[tg] in db.users {
          assert OwnerOtherThan(db, db.logins[tg]) <==> OtherOwner(db, db.logins[tg]);
        }
      case AskAccess(_) =>
      case AskRotate(current, target, confirmed) => RotateSays(db, c, current, target, confirmed);
    }
  }
}
