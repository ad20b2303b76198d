/** What a request reads decides what it writes: two registries that agree on it lead to the same refusal or to
    the same rows and events. */
module IdentityViews {
  import opened Journal
  import opened Policy
  import opened Identity
  import opened Footprints

  /** Rotation, and a login that may make the recovery user the owner. A recovery login that finds nothing to
      reconcile takes no barrier and goes on like any other login: its context names no recovery identity. */
  predicate Exclusive(c: Context, r: Request) {
    r.AskRotate? || (r.AskLogin? && c.recovery == Some(r.telegram))
  }

  predicate Paired(r: Request) {
    r.AskUpdateAccess? || r.AskDecide? || r.AskUpdateRole? || r.AskReset?
  }

  /** The users a request reads. */
  function Reads(db: Registry, r: Request): set<Id> {
    if Paired(r) then {r.actor, r.target}
    else if r.AskLogin? then Writes(db, r) + {r.newcomer}
    else Writes(db, r)
  }

  /** The registries agree on everything the request reads. */
  ghost predicate SameView(a: Registry, b: Registry, c: Context, r: Request) {
    && (forall u :: u in Reads(a, r) ==> SliceOf(a, u) == SliceOf(b, u))
    && (r.AskLogin? ==> (r.telegram in a.logins <==> r.telegram in b.logins) && (r.session in a.sessions <==> r.session in b.sessions))
    && (Exclusive(c, r) ==> forall u :: IsOwner(a, u) == IsOwner(b, u))
  }

  predicate SameTail<T(==)>(x: seq<T>, x': seq<T>, y: seq<T>, y': seq<T>) {
    x <= x' && y <= y' && x'[|x|..] == y'[|y|..]
  }

  /** Going from a to a' and from b to b' did the same to these users and logged the same. */
  ghost predicate Alike(a: Registry, a': Registry, b: Registry, b': Registry, users: set<Id>) {
    && (forall u :: u in users ==> SliceOf(a', u) == SliceOf(b', u))
    && SameTail(a.accessLog, a'.accessLog, b.accessLog, b'.accessLog)
    && SameTail(a.roleLog, a'.roleLog, b.roleLog, b'.roleLog)
    && SameTail(a.decided, a'.decided, b.decided, b'.decided)
  }

  lemma SameTailSnoc<T>(x: seq<T>, x': seq<T>, y: seq<T>, y': seq<T>, e: T)
    requires SameTail(x, x', y, y')
    ensures SameTail(x, x' + [e], y, y' + [e])
  {
    assert (x' + [e])[|x|..] == x'[|x|..] + [e] && (y' + [e])[|y|..] == y'[|y|..] + [e];
  }

  lemma Rows(a: Registry, b: Registry, user: Id)
    requires SliceOf(a, user) == SliceOf(b, user)
    ensures (user in a.users <==> user in b.users) && (user in a.users ==> a.users[user] == b.users[user])
    ensures (user in a.pending <==> user in b.pending)
    ensures forall tg :: LoginOf(a, user, tg) <==> LoginOf(b, user, tg)
  {
    assert SliceOf(a, user).row == SliceOf(b, user).row;
    forall tg ensures LoginOf(a, user, tg) <==> LoginOf(b, user, tg) {
      assert tg in LoginsOf(a, user) <==> tg in LoginsOf(b, user);
    }
  }

  // ----- Primitives -----

  lemma TransitionAlike(a0: Registry, a: Registry, b0: Registry, b: Registry, users: set<Id>, user: Id, actor: Id, access: Access,
                        now: int)
    requires Alike(a0, a, b0, b, users) && user in users && user in a.users
    ensures user in b.users && Alike(a0, Transition(a, user, actor, access, now), b0, Transition(b, user, actor, access, now), users)
  {
    Rows(a, b, user);
    var a', b' := Transition(a, user, actor, access, now), Transition(b, user, actor, access, now);
    if a.users[user].access != access {
      SameTailSnoc(a0.accessLog, a.accessLog, b0.accessLog, b.accessLog, Event(actor, user, a.users[user].access, access));
    }
    forall u | u in users ensures SliceOf(a', u) == SliceOf(b', u) {
      assert SliceOf(a, u) == SliceOf(b, u);
      Columns(a, a', u);
      Columns(b, b', u);
    }
  }

  /** Columns other than the user's row are kept by the primitives on rows. */
  lemma Columns(db: Registry, db': Registry, user: Id)
    requires db'.logins == db.logins && db'.pending == db.pending && db'.sessions == db.sessions && db'.notices == db.notices
    ensures SliceOf(db', user) == SliceOf(db, user).(row := if user in db'.users then Some(db'.users[user]) else None)
  {
  }

  lemma SetRoleAlike(a0: Registry, a: Registry, b0: Registry, b: Registry, users: set<Id>, user: Id, actor: Id, role: Role)
    requires Alike(a0, a, b0, b, users) && user in users && user in a.users
    ensures user in b.users && Alike(a0, SetRole(a, user, actor, role), b0, SetRole(b, user, actor, role), users)
  {
    Rows(a, b, user);
    var a', b' := SetRole(a, user, actor, role), SetRole(b, user, actor, role);
    if a.users[user].role != role {
      SameTailSnoc(a0.roleLog, a.roleLog, b0.roleLog, b.roleLog, Event(actor, user, a.users[user].role, role));
    }
    forall u | u in users ensures SliceOf(a', u) == SliceOf(b', u) {
      assert SliceOf(a, u) == SliceOf(b, u);
      Columns(a, a', u);
      Columns(b, b', u);
    }
  }

  /** Writing the same row over the same user. */
  lemma RowAlike(a0: Registry, a: Registry, b0: Registry, b: Registry, users: set<Id>, user: Id, row: User)
    requires Alike(a0, a, b0, b, users)
    ensures Alike(a0, a.(users := a.users[user := row]), b0, b.(users := b.users[user := row]), users)
  {
    var a', b' := a.(users := a.users[user := row]), b.(users := b.users[user := row]);
    forall u | u in users ensures SliceOf(a', u) == SliceOf(b', u) {
      assert SliceOf(a, u) == SliceOf(b, u);
      Columns(a, a', u);
      Columns(b, b', u);
    }
  }

  lemma ResolveAlike(a0: Registry, a: Registry, b0: Registry, b: Registry, users: set<Id>, user: Id, approved: bool, decider: Id)
    requires Alike(a0, a, b0, b, users) && user in users
    ensures Alike(a0, Resolve(a, user, approved, decider), b0, Resolve(b, user, approved, decider), users)
  {
    Rows(a, b, user);
    SameTailSnoc(a0.decided, a.decided, b0.decided, b.decided, Decision(user, approved, decider));
    var a', b' := Resolve(a, user, approved, decider), Resolve(b, user, approved, decider);
    forall u | u in users ensures SliceOf(a', u) == SliceOf(b', u) {
      assert SliceOf(a, u) == SliceOf(b, u);
      assert SliceOf(a', u) == SliceOf(a, u).(pending := u in a'.pending);
      assert SliceOf(b', u) == SliceOf(b, u).(pending := u in b'.pending);
    }
  }

  lemma RevokeAlike(a0: Registry, a: Registry, b0: Registry, b: Registry, users: set<Id>, of: set<Id>)
    requires Alike(a0, a, b0, b, users)
    ensures Alike(a0, Revoke(a, of), b0, Revoke(b, of), users)
  {
    forall u | u in users ensures SliceOf(Revoke(a, of), u) == SliceOf(Revoke(b, of), u) {
      assert SliceOf(a, u) == SliceOf(b, u);
      RevokedSlice(a, of, u);
      RevokedSlice(b, of, u);
    }
  }

  lemma RevokedSlice(db: Registry, of: set<Id>, user: Id)
    ensures SliceOf(Revoke(db, of), user) == SliceOf(db, user).(sessions := if user in of then {} else SessionsOf(db, user))
  {
    assert SessionsOf(Revoke(db, of), user) == if user in of then {} else SessionsOf(db, user);
  }

  // ----- Requests -----

  /** The request succeeds in b as in a, and does the same. */
  ghost predicate DoesTheSame(a: Registry, b: Registry, c: Context, r: Request)
    requires Body(a, c, r).Ok?
  {
    && Body(b, c, r).Ok? && Writes(b, r) == Writes(a, r)
    && Alike(a, Body(a, c, r).db, b, Body(b, c, r).db, Writes(a, r))
  }

  lemma AlikeStart(a: Registry, b: Registry, c: Context, r: Request)
    requires SameView(a, b, c, r)
    ensures Alike(a, a, b, b, Writes(a, r))
  {
    assert Writes(a, r) <= Reads(a, r);
  }

  /** Both rows of an administrative request. */
  lemma PairRows(a: Registry, b: Registry, c: Context, r: Request)
    requires SameView(a, b, c, r) && Paired(r)
    ensures LockPair(a, r.actor, r.target) == LockPair(b, r.actor, r.target)
    ensures LockPair(a, r.actor, r.target).None? ==> a.users[r.actor] == b.users[r.actor] && a.users[r.target] == b.users[r.target]
    ensures r.target in a.pending <==> r.target in b.pending
    ensures forall tg :: LoginOf(a, r.target, tg) <==> LoginOf(b, r.target, tg)
    ensures IsRecovery(a, r.target, c.recovery) <==> IsRecovery(b, r.target, c.recovery)
    ensures Alike(a, a, b, b, {r.target})
  {
    Rows(a, b, r.actor);
    Rows(a, b, r.target);
    AlikeStart(a, b, c, r);
    if c.recovery.Some? {
      assert LoginOf(a, r.target, c.recovery.value) <==> LoginOf(b, r.target, c.recovery.value);
    }
  }

  lemma UpdateAccessSame(a: Registry, b: Registry, c: Context, actor: Id, target: Id, access: Access)
    requires SameView(a, b, c, AskUpdateAccess(actor, target, access)) && UpdateAccess(a, c, actor, target, access).Ok?
    ensures DoesTheSame(a, b, c, AskUpdateAccess(actor, target, access))
  {
    PairRows(a, b, c, AskUpdateAccess(actor, target, access));
    if access != a.users[target].access {
      TransitionAlike(a, a, b, b, {target}, target, actor, access, c.now);
      RevokeAlike(a, Transition(a, target, actor, access, c.now), b, Transition(b, target, actor, access, c.now), {target}, {target});
    }
  }

  lemma DecideSame(a: Registry, b: Registry, c: Context, actor: Id, target: Id, verdict: Verdict)
    requires SameView(a, b, c, AskDecide(actor, target, verdict)) && Decide(a, c, actor, target, verdict).Ok?
    ensures DoesTheSame(a, b, c, AskDecide(actor, target, verdict))
  {
    PairRows(a, b, c, AskDecide(actor, target, verdict));
    var access := if verdict == Approve then Approved else Rejected;
    TransitionAlike(a, a, b, b, {target}, target, actor, access, c.now);
    ResolveAlike(a, Transition(a, target, actor, access, c.now), b, Transition(b, target, actor, access, c.now), {target},
                 target, verdict == Approve, actor);
  }

  lemma UpdateRoleSame(a: Registry, b: Registry, c: Context, actor: Id, target: Id, role: Role)
    requires SameView(a, b, c, AskUpdateRole(actor, target, role)) && UpdateRole(a, c, actor, target, role).Ok?
    ensures DoesTheSame(a, b, c, AskUpdateRole(actor, target, role))
  {
    PairRows(a, b, c, AskUpdateRole(actor, target, role));
    SetRoleAlike(a, a, b, b, {target}, target, actor, role);
  }

  lemma DetachAlike(a: Registry, b: Registry, user: Id)
    requires Alike(a, a, b, b, {user})
    ensures Alike(a, Detached(a, user), b, Detached(b, user), {user})
  {
    RevokeAlike(a, a, b, b, {user}, {user});
    Rows(a, b, user);
    DetachedSlice(a, user);
    DetachedSlice(b, user);
  }

  lemma DetachedSlice(db: Registry, user: Id)
    ensures var s := SliceOf(db, user);
            SliceOf(Detached(db, user), user)
            == s.(sessions := {}, pending := false,
                  notice := if s.pending && s.notice.Some? then Some(Outbox.Withdrawn(s.notice.value)) else s.notice)
  {
    RevokedSlice(db, {user}, user);
  }

  lemma DropLoginAlike(a0: Registry, a: Registry, b0: Registry, b: Registry, user: Id, telegram: int)
    requires Alike(a0, a, b0, b, {user})
    ensures Alike(a0, a.(logins := a.logins - {telegram}), b0, b.(logins := b.logins - {telegram}), {user})
  {
    DroppedSlice(a, user, telegram);
    DroppedSlice(b, user, telegram);
  }

  lemma DroppedSlice(db: Registry, user: Id, telegram: int)
    ensures SliceOf(db.(logins := db.logins - {telegram}), user)
         == SliceOf(db, user).(logins := LoginsOf(db, user) - {telegram})
  {
    assert LoginsOf(db.(logins := db.logins - {telegram}), user) == LoginsOf(db, user) - {telegram};
  }

  lemma ResetAllowed(a: Registry, b: Registry, c: Context, actor: Id, target: Id, telegram: int)
    requires SameView(a, b, c, AskReset(actor, target, telegram)) && Reset(a, c, actor, target, telegram).Ok?
    ensures Reset(b, c, actor, target, telegram).Ok?
  {
    PairRows(a, b, c, AskReset(actor, target, telegram));
    assert LoginOf(b, target, telegram);
  }

  lemma ResetSame(a: Registry, b: Registry, c: Context, actor: Id, target: Id, telegram: int)
    requires SameView(a, b, c, AskReset(actor, target, telegram)) && Reset(a, c, actor, target, telegram).Ok?
    ensures DoesTheSame(a, b, c, AskReset(actor, target, telegram))
  {
    PairRows(a, b, c, AskReset(actor, target, telegram));
    ResetAllowed(a, b, c, actor, target, telegram);
    var w := {target};
    DetachAlike(a, b, target);
    var a1, b1 := Detached(a, target), Detached(b, target);
    TransitionAlike(a, a1, b, b1, w, target, actor, Blocked, c.now);
    var a2, b2 := Transition(a1, target, actor, Blocked, c.now), Transition(b1, target, actor, Blocked, c.now);
    SetRoleAlike(a, a2, b, b2, w, target, actor, Engineer);
    DropLoginAlike(a, SetRole(a2, target, actor, Engineer), b, SetRole(b2, target, actor, Engineer), target, telegram);
  }

  lemma RequestSame(a: Registry, b: Registry, c: Context, user: Id)
    requires SameView(a, b, c, AskAccess(user)) && RequestAccess(a, c, user).Ok?
    ensures DoesTheSame(a, b, c, AskAccess(user))
  {
    AlikeStart(a, b, c, AskAccess(user));
    Rows(a, b, user);
    TransitionAlike(a, a, b, b, {user}, user, user, Pending, c.now);
    RequestedSlice(a, c, user);
    RequestedSlice(b, c, user);
  }

  lemma RequestedSlice(db: Registry, c: Context, user: Id)
    requires RequestAccess(db, c, user).Ok?
    ensures var s := SliceOf(db, user);
            SliceOf(RequestAccess(db, c, user).db, user)
            == SliceOf(Transition(db, user, user, Pending, c.now), user)
               .(pending := true, notice := if s.pending && s.notice.Some? then s.notice
                                            else Some(Outbox.NewRow(user, "sendMessage", c.now, None)))
  {
  }

  lemma RotateSame(a: Registry, b: Registry, c: Context, current: int, target: int, confirmed: Id)
    requires SameView(a, b, c, AskRotate(current, target, confirmed)) && Rotate(a, c, current, target, confirmed).Ok?
    ensures DoesTheSame(a, b, c, AskRotate(current, target, confirmed))
  {
    RotationViews(a, b, c, current, target, confirmed);
    var owner, w := a.logins[current], {a.logins[current], confirmed};
    AlikeStart(a, b, c, AskRotate(current, target, confirmed));
    RotatedAlike(a, b, c, owner, confirmed, w);
    RotatedOwners(a, c, owner, confirmed);
    RotatedOwners(b, c, owner, confirmed);
  }

  lemma RotationViews(a: Registry, b: Registry, c: Context, current: int, target: int, confirmed: Id)
    requires SameView(a, b, c, AskRotate(current, target, confirmed)) && Rotate(a, c, current, target, confirmed).Ok?
    ensures RotationRefusal(b, c, current, target, confirmed).None? && b.logins[current] == a.logins[current]
  {
    var owner := a.logins[current];
    Rows(a, b, owner);
    Rows(a, b, confirmed);
    assert LoginOf(a, owner, current) && LoginOf(a, confirmed, target);
    assert LoginOf(b, owner, current) && LoginOf(b, confirmed, target);
    assert forall u :: IsOwner(a, u) == IsOwner(b, u);
    assert !OwnerOtherThan(b, owner) by {
      assert forall u :: u in a.users && u != owner ==> !IsOwner(a, u);
    }
  }

  lemma RotatedAlike(a: Registry, b: Registry, c: Context, owner: Id, confirmed: Id, w: set<Id>)
    requires owner in a.users && confirmed in a.users && w == {owner, confirmed} && Alike(a, a, b, b, w)
    ensures owner in b.users && confirmed in b.users
    ensures Alike(a, Rotated(a, c, owner, confirmed), b, Rotated(b, c, owner, confirmed), w)
  {
    SetRoleAlike(a, a, b, b, w, owner, owner, Admin);
    var a1, b1 := SetRole(a, owner, owner, Admin), SetRole(b, owner, owner, Admin);
    Rows(a, b, confirmed);
    AdmitAlike(a, a1, b, b1, c, owner, confirmed, w);
    var a2, b2 := Admitted(a1, c, owner, confirmed), Admitted(b1, c, owner, confirmed);
    ResolveAlike(a, a2, b, b2, w, confirmed, true, owner);
    var a3, b3 := Resolve(a2, confirmed, true, owner), Resolve(b2, confirmed, true, owner);
    SetRoleAlike(a, a3, b, b3, w, confirmed, owner, Owner);
    RevokeAlike(a, SetRole(a3, confirmed, owner, Owner), b, SetRole(b3, confirmed, owner, Owner), w, w);
  }

  lemma AdmitAlike(a0: Registry, a: Registry, b0: Registry, b: Registry, c: Context, owner: Id, confirmed: Id, w: set<Id>)
    requires Alike(a0, a, b0, b, w) && confirmed in w && confirmed in a.users
    ensures confirmed in b.users && Alike(a0, Admitted(a, c, owner, confirmed), b0, Admitted(b, c, owner, confirmed), w)
  {
    Rows(a, b, confirmed);
    if a.users[confirmed].access != Approved {
      TransitionAlike(a0, a, b0, b, w, confirmed, owner, Approved, c.now);
    } else {
      RowAlike(a0, a, b0, b, w, confirmed, FillApproval(a, confirmed, owner, c.now).users[confirmed]);
    }
  }

  lemma RotatedOwners(db: Registry, c: Context, owner: Id, confirmed: Id)
    requires owner in db.users && confirmed in db.users && owner != confirmed && !OwnerOtherThan(db, owner)
    ensures IsOwner(Rotated(db, c, owner, confirmed), confirmed) && !OwnerOtherThan(Rotated(db, c, owner, confirmed), confirmed)
  {
    RotatedUsers(db, c, owner, confirmed);
    assert forall v :: v in db.users && v != owner ==> !IsOwner(db, v);
  }

  // ----- Logins -----

  lemma ReconcileSame(a: Registry, b: Registry, c: Context, user: Id)
    requires SliceOf(a, user) == SliceOf(b, user) && user in a.users && (forall u :: IsOwner(a, u) == IsOwner(b, u))
    requires Reconcile(a, c, user).Ok?
    ensures user in b.users && Reconcile(b, c, user).Ok?
    ensures Alike(a, Reconcile(a, c, user).db, b, Reconcile(b, c, user).db, {user})
  {
    Rows(a, b, user);
    assert OwnerOtherThan(a, user) == OwnerOtherThan(b, user) by {
      assert forall u :: u in a.users && u != user && IsOwner(a, u) ==> u in b.users && IsOwner(b, u);
      assert forall u :: u in b.users && u != user && IsOwner(b, u) ==> u in a.users && IsOwner(a, u);
    }
    var w := {user};
    assert Alike(a, a, b, b, w);
    SetRoleAlike(a, a, b, b, w, user, user, Owner);
    var a1, b1 := SetRole(a, user, user, Owner), SetRole(b, user, user, Owner);
    ApprovalAlike(a, a1, b, b1, c, user);
    ResolveAlike(a, ReconcileApproval(a1, c, user), b, ReconcileApproval(b1, c, user), w, user, true, user);
  }

  lemma ApprovalAlike(a0: Registry, a: Registry, b0: Registry, b: Registry, c: Context, user: Id)
    requires Alike(a0, a, b0, b, {user}) && user in a.users
    ensures user in b.users && Alike(a0, ReconcileApproval(a, c, user), b0, ReconcileApproval(b, c, user), {user})
  {
    Rows(a, b, user);
    if a.users[user].access != Approved {
      TransitionAlike(a0, a, b0, b, {user}, user, user, Approved, c.now);
    } else if a.users[user].approvedAt.None? || a.users[user].approvedBy.None? {
      RowAlike(a0, a, b0, b, {user}, user, ReconcileApproval(a, c, user).users[user]);
    }
  }

  lemma UpsertSame(a: Registry, b: Registry, c: Context, tg: int, newcomer: Id, session: Id)
    requires SameView(a, b, c, AskLogin(tg, newcomer, session)) && Upsert(a, c, tg, newcomer).Ok?
    ensures Upsert(b, c, tg, newcomer).Ok? && Writes(b, AskLogin(tg, newcomer, session)) == Writes(a, AskLogin(tg, newcomer, session))
    ensures Alike(a, Upsert(a, c, tg, newcomer).db, b, Upsert(b, c, tg, newcomer).db, Writes(a, AskLogin(tg, newcomer, session)))
  {
    AlikeStart(a, b, c, AskLogin(tg, newcomer, session));
    if tg in a.logins {
      var user := a.logins[tg];
      assert LoginOf(a, user, tg);
      Rows(a, b, user);
      assert LoginOf(b, user, tg);
      if c.recovery == Some(tg) && user in a.users {
        ReconcileSame(a, b, c, user);
      }
    } else {
      NewcomerSame(a, b, c, tg, newcomer, session);
    }
  }

  lemma NewcomerSame(a: Registry, b: Registry, c: Context, tg: int, newcomer: Id, session: Id)
    requires SameView(a, b, c, AskLogin(tg, newcomer, session)) && tg !in a.logins && Upsert(a, c, tg, newcomer).Ok?
    ensures Upsert(b, c, tg, newcomer).Ok?
    ensures Alike(a, Upsert(a, c, tg, newcomer).db, b, Upsert(b, c, tg, newcomer).db, {newcomer})
  {
    assert SliceOf(a, newcomer) == SliceOf(b, newcomer);
    NoOwnerSame(a, b, c, tg, newcomer, session);
    NewcomerSlice(a, c, tg, newcomer);
    NewcomerSlice(b, c, tg, newcomer);
  }

  lemma NoOwnerSame(a: Registry, b: Registry, c: Context, tg: int, newcomer: Id, session: Id)
    requires SameView(a, b, c, AskLogin(tg, newcomer, session)) && tg !in a.logins && Upsert(a, c, tg, newcomer).Ok?
    ensures Upsert(b, c, tg, newcomer).Ok?
  {
    if c.recovery == Some(tg) {
      assert forall u :: u in a.users ==> !IsOwner(a, u);
      assert forall u :: IsOwner(a, u) == IsOwner(b, u);
    }
  }

  lemma NewcomerSlice(db: Registry, c: Context, tg: int, newcomer: Id)
    requires tg !in db.logins && Upsert(db, c, tg, newcomer).Ok?
    ensures var row := if c.recovery == Some(tg) then User(Owner, Approved, Some(c.now), None) else User(Engineer, Pending, None, None);
            var db' := Upsert(db, c, tg, newcomer).db;
            && SliceOf(db', newcomer) == SliceOf(db, newcomer).(row := Some(row), logins := LoginsOf(db, newcomer) + {tg})
            && db'.accessLog == db.accessLog && db'.roleLog == db.roleLog && db'.decided == db.decided
  {
    var db' := Upsert(db, c, tg, newcomer).db;
    AddedSlice(db, tg, newcomer);
    Columns(db.(logins := db.logins[tg := newcomer]), db', newcomer);
  }

  lemma AddedSlice(db: Registry, tg: int, user: Id)
    ensures SliceOf(db.(logins := db.logins[tg := user]), user) == SliceOf(db, user).(logins := LoginsOf(db, user) + {tg})
  {
    assert LoginsOf(db.(logins := db.logins[tg := user]), user) == LoginsOf(db, user) + {tg};
  }

  lemma SessionSlice(db: Registry, session: Id, user: Id)
    ensures SliceOf(db.(sessions := db.sessions[session := user]), user)
         == SliceOf(db, user).(sessions := SessionsOf(db, user) + {session})
  {
    assert SessionsOf(db.(sessions := db.sessions[session := user]), user) == SessionsOf(db, user) + {session};
  }

  lemma LoginSame(a: Registry, b: Registry, c: Context, tg: int, newcomer: Id, session: Id)
    requires SameView(a, b, c, AskLogin(tg, newcomer, session)) && Login(a, c, tg, newcomer, session).Ok?
    ensures DoesTheSame(a, b, c, AskLogin(tg, newcomer, session))
  {
    var r := AskLogin(tg, newcomer, session);
    UpsertSame(a, b, c, tg, newcomer, session);
    UpsertKeepsSessions(a, c, tg, newcomer);
    UpsertKeepsSessions(b, c, tg, newcomer);
    var a1, b1 := Upsert(a, c, tg, newcomer).db, Upsert(b, c, tg, newcomer).db;
    var user := a1.logins[tg];
    assert Writes(a, r) == {user} && Writes(b, r) == {b1.logins[tg]};
    assert b1.logins[tg] in Writes(a, r);
    SessionSlice(a1, session, user);
    SessionSlice(b1, session, user);
  }

  /** Registries that agree on what a successful request reads lead to the same writes. */
  lemma SameViewSameEffect(a: Registry, b: Registry, c: Context, r: Request)
    requires SameView(a, b, c, r) && Distinct(a, r) && Body(a, c, r).Ok?
    ensures Distinct(b, r) && DoesTheSame(a, b, c, r)
  {
    match r
    case AskLogin(tg, newcomer, session) =>
      LoginSame(a, b, c, tg, newcomer, session);
      Rows(a, b, newcomer);
    case AskAccess(user) => RequestSame(a, b, c, user);
    case AskUpdateAccess(actor, target, access) => UpdateAccessSame(a, b, c, actor, target, access);
    case AskDecide(actor, target, verdict) => DecideSame(a, b, c, actor, target, verdict);
    case AskUpdateRole(actor, target, role) => UpdateRoleSame(a, b, c, actor, target, role);
    case AskReset(actor, target, tg) => ResetSame(a, b, c, actor, target, tg);
    case AskRotate(current, target, confirmed) => RotateSame(a, b, c, current, target, confirmed);
  }

  // ----- Owners -----

  /** Only rotations and recovery logins change who is the owner. */
  lemma OwnersKept(db: Registry, c: Context, r: Request, user: Id)
    requires Distinct(db, r) && Body(db, c, r).Ok? && !Exclusive(c, r)
    ensures IsOwner(Body(db, c, r).db, user) == IsOwner(db, user)
  {
    if user !in Writes(db, r) {
      BodyTouches(db, c, r);
      Rows(Body(db, c, r).db, db, user);
    } else {
      match r
      case AskLogin(tg, newcomer, session) => LoginOwner(db, c, tg, newcomer, session, user);
      case AskAccess(_) => TransitionUsers(db, user, user, Pending, c.now);
      case AskUpdateAccess(actor, _, access) => TransitionUsers(db, user, actor, access, c.now);
      case AskDecide(actor, _, verdict) => TransitionUsers(db, user, actor, if verdict == Approve then Approved else Rejected, c.now);
      case AskUpdateRole(actor, _, role) => SetRoleUsers(db, user, actor, role);
      case AskReset(actor, target, tg) => ResetColumns(db, c, actor, target, tg);
    }
  }

  lemma LoginOwner(db: Registry, c: Context, tg: int, newcomer: Id, session: Id, user: Id)
    requires newcomer !in db.users && c.recovery != Some(tg)
    ensures Login(db, c, tg, newcomer, session).Ok? && IsOwner(Login(db, c, tg, newcomer, session).db, user) == IsOwner(db, user)
  {
  }
}
