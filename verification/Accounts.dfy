/** The identity services as they run: rows are updated and events appended in sequence; a failed commit
    rolls everything back. */
module Accounts {
  import opened Journal
  import opened Policy
  import opened Identity

  class Accounts {
    var users: map<Id, User>
    var logins: map<int, Id>
    var pending: set<Id>
    var decided: seq<Decision>
    var accessLog: seq<Event<Access>>
    var roleLog: seq<Event<Role>>
    var sessions: map<Id, Id>
    var notices: map<Id, Outbox.Row>

    function Snapshot(): Registry
      reads this
    {
      Registry(users, logins, pending, decided, accessLog, roleLog, sessions, notices)
    }

    constructor ()
      ensures Snapshot() == EMPTY
    {
      users, logins, pending, decided, accessLog, roleLog := map[], map[], {}, [], [], [];
      sessions, notices := map[], map[];
    }

    method TransitionUserAccess(user: Id, actor: Id, access: Access, now: int)
      requires user in users
      modifies this
      ensures Snapshot() == Transition(old(Snapshot()), user, actor, access, now)
    {
      var before := users[user].access;
      if before == access {
        return;
      }
      var u := users[user].(access := access);
      if access == Approved {
        u := u.(approvedAt := Some(now), approvedBy := Some(actor));
      } else {
        u := u.(approvedAt := None, approvedBy := None);
      }
      users := users[user := u];
      accessLog := accessLog + [Event(actor, user, before, access)];
    }

    method ChangeRole(user: Id, actor: Id, role: Role)
      requires user in users
      modifies this
      ensures Snapshot() == SetRole(old(Snapshot()), user, actor, role)
    {
      var before := users[user].role;
      if before != role {
        users := users[user := users[user].(role := role)];
        roleLog := roleLog + [Event(actor, user, before, role)];
      }
    }

    method ResolvePending(user: Id, approved: bool, decider: Id)
      modifies this
      ensures Snapshot() == Resolve(old(Snapshot()), user, approved, decider)
    {
      if user in pending {
        pending := pending - {user};
        decided := decided + [Decision(user, approved, decider)];
      }
    }

    /** UPDATE auth_sessions SET revoked_at */
    method RevokeSessions(of: set<Id>)
      modifies this`sessions
      ensures Snapshot() == Revoke(old(Snapshot()), of)
    {
      sessions := map s | s in sessions && sessions[s] !in of :: sessions[s];
    }

    method Rollback(before: Registry)
      modifies this
      ensures Snapshot() == before
    {
      users, logins, pending := before.users, before.logins, before.pending;
      decided, accessLog, roleLog := before.decided, before.accessLog, before.roleLog;
      sessions, notices := before.sessions, before.notices;
    }

    /** COMMIT: the deferred trigger accepts, or every row goes back. */
    method Commit(before: Registry, holders: set<Id>) returns (error: Option<Error>)
      modifies this
      ensures CommitAccepted(before, old(Snapshot()), holders) ==> error.None? && Snapshot() == old(Snapshot())
      ensures !CommitAccepted(before, old(Snapshot()), holders) ==> error == Some(CommitRefused) && Snapshot() == before
    {
      if CommitAccepted(before, Snapshot(), holders) {
        return None;
      }
      Rollback(before);
      return Some(CommitRefused);
    }

    method UpdateUserAccess(c: Context, actor: Id, target: Id, access: Access) returns (error: Option<Error>)
      modifies this
      ensures error == Answer(old(Snapshot()), c, AskUpdateAccess(actor, target, access))
      ensures Snapshot() == Exec(old(Snapshot()), c, AskUpdateAccess(actor, target, access))
    {
      var before := Snapshot();
      error := LockPair(before, actor, target);
      if error.Some? {
        return;
      }
      var t := users[target];
      if access == t.access {
        return None;
      }
      if (t.access, access) != (Approved, Blocked) && (t.access, access) != (Blocked, Approved) {
        return Some(InvalidTransition);
      }
      if t.role == Owner || IsRecovery(before, target, c.recovery) {
        return Some(RecoveryInvariant);
      }
      if (t.role == Admin && users[actor].role != Owner) || actor == target {
        return Some(Forbidden);
      }
      if access == Blocked && target in c.holders {
        return Some(OutstandingCustody);
      }
      if access == Blocked && CanCreateProcurement(t.role) && target in c.creating {
        return Some(ActiveProcurement);
      }
      TransitionUserAccess(target, actor, access, c.now);
      if access == Blocked {
        RevokeSessions({target});
      }
      error := Commit(before, c.holders);
    }

    method DecidePendingAccessRequest(c: Context, actor: Id, target: Id, verdict: Verdict) returns (error: Option<Error>)
      modifies this
      ensures error == Answer(old(Snapshot()), c, AskDecide(actor, target, verdict))
      ensures Snapshot() == Exec(old(Snapshot()), c, AskDecide(actor, target, verdict))
    {
      var before := Snapshot();
      if verdict == StayPending {
        return Some(InvalidTransition);
      }
      error := LockPair(before, actor, target);
      if error.Some? {
        return;
      }
      var t := users[target];
      if actor == target {
        return Some(Forbidden);
      }
      if t.role == Owner || IsRecovery(before, target, c.recovery) {
        return Some(RecoveryInvariant);
      }
      if t.role == Admin && users[actor].role != Owner {
        return Some(Forbidden);
      }
      if t.access != Pending {
        return Some(InvalidTransition);
      }
      if target !in pending {
        return Some(NoPendingRequest);
      }
      TransitionUserAccess(target, actor, if verdict == Approve then Approved else Rejected, c.now);
      ResolvePending(target, verdict == Approve, actor);
      error := Commit(before, c.holders);
    }

    method UpdateUserRole(c: Context, actor: Id, target: Id, role: Role) returns (error: Option<Error>)
      modifies this
      ensures error == Answer(old(Snapshot()), c, AskUpdateRole(actor, target, role))
      ensures Snapshot() == Exec(old(Snapshot()), c, AskUpdateRole(actor, target, role))
    {
      var before := Snapshot();
      error := LockPair(before, actor, target);
      if error.Some? {
        return;
      }
      var t := users[target];
      if actor == target || role == Owner {
        return Some(Forbidden);
      }
      if t.role == Owner || IsRecovery(before, target, c.recovery) {
        return Some(RecoveryInvariant);
      }
      if t.role == Admin && users[actor].role != Owner {
        return Some(Forbidden);
      }
      if !StandardRole(role) && !(role == Admin && users[actor].role == Owner) {
        return Some(Forbidden);
      }
      if role == t.role {
        return None;
      }
      if !CustodyRole(role) && target in c.holders {
        return Some(OutstandingCustody);
      }
      if CanCreateProcurement(t.role) && !CanCreateProcurement(role) && target in c.creating {
        return Some(ActiveProcurement);
      }
      ChangeRole(target, actor, role);
      error := Commit(before, c.holders);
    }

    method CreateOrGetAccessRequest(c: Context, user: Id) returns (error: Option<Error>)
      modifies this
      ensures error == Answer(old(Snapshot()), c, AskAccess(user))
      ensures Snapshot() == Exec(old(Snapshot()), c, AskAccess(user))
    {
      var before := Snapshot();
      if user !in users {
        return Some(NotFound);
      }
      if users[user].access == Approved {
        return Some(AlreadyApproved);
      }
      if users[user].access == Blocked {
        return Some(AccessBlocked);
      }
      if users[user].access == Rejected {
        TransitionUserAccess(user, user, Pending, c.now);
      }
      if user !in pending || user !in notices {
        notices := notices[user := Outbox.NewRow(user, "sendMessage", c.now, None)];
      }
      pending := pending + {user};
      error := Commit(before, c.holders);
    }

    /** Sessions, the pending request and its notice go. */
    method Detach(target: Id)
      modifies this
      ensures Snapshot() == Detached(old(Snapshot()), target)
    {
      RevokeSessions({target});
      if target in pending {
        if target in notices {
          notices := notices[target := Outbox.Withdrawn(notices[target])];
        }
        pending := pending - {target};
      }
    }

    method ResetUserAccount(c: Context, actor: Id, target: Id, telegram: int) returns (error: Option<Error>)
      modifies this
      ensures error == Answer(old(Snapshot()), c, AskReset(actor, target, telegram))
      ensures Snapshot() == Exec(old(Snapshot()), c, AskReset(actor, target, telegram))
    {
      var before := Snapshot();
      if !(exists tg :: tg in logins && logins[tg] == target) {
        return Some(NotFound);
      }
      if !LoginOf(before, target, telegram) {
        return Some(IdentityMismatch);
      }
      error := LockPair(before, actor, target);
      if error.Some? {
        return;
      }
      var t := users[target];
      if actor == target {
        return Some(Forbidden);
      }
      if t.role == Owner || c.recovery == Some(telegram) {
        return Some(RecoveryInvariant);
      }
      if t.role == Admin && users[actor].role != Owner {
        return Some(Forbidden);
      }
      if target in c.holders {
        return Some(OutstandingCustody);
      }
      if target in c.involved {
        return Some(ActiveProcurement);
      }
      Detach(target);
      TransitionUserAccess(target, actor, Blocked, c.now);
      ChangeRole(target, actor, Engineer);
      logins := logins - {telegram};
      error := Commit(before, c.holders);
    }

    method ReconcileRecoveryOwner(c: Context, user: Id) returns (error: Option<Error>)
      requires user in users
      modifies this
      ensures var result := Reconcile(old(Snapshot()), c, user);
              if result.Ok? then error.None? && Snapshot() == result.db
              else error == Some(result.error) && Snapshot() == old(Snapshot())
    {
      var u := users[user];
      if u.role == Owner && u.access == Approved && u.approvedAt.Some? && u.approvedBy.Some? && user !in pending {
        return None;
      }
      if OwnerOtherThan(Snapshot(), user) {
        return Some(OwnerConflict);
      }
      ChangeRole(user, user, Owner);
      if users[user].access != Approved {
        TransitionUserAccess(user, user, Approved, c.now);
      } else if users[user].approvedAt.None? || users[user].approvedBy.None? {
        users := users[user := users[user].(approvedAt := Some(c.now), approvedBy := Some(user))];
      }
      ResolvePending(user, true, user);
      return None;
    }

    method UpsertTelegramIdentity(c: Context, telegram: int, newcomer: Id) returns (error: Option<Error>)
      requires newcomer !in users
      modifies this
      ensures var result := Upsert(old(Snapshot()), c, telegram, newcomer);
              if result.Ok? then error.None? && Snapshot() == result.db
              else error == Some(result.error) && Snapshot() == old(Snapshot())
    {
      if telegram !in logins {
        if c.recovery == Some(telegram) && exists u :: u in users && IsOwner(Snapshot(), u) {
          return Some(OwnerConflict);
        }
        var user := User(Engineer, Pending, None, None);
        if c.recovery == Some(telegram) {
          user := User(Owner, Approved, Some(c.now), None);
        }
        users := users[newcomer := user];
        logins := logins[telegram := newcomer];
      } else if c.recovery == Some(telegram) && logins[telegram] in users {
        error := ReconcileRecoveryOwner(c, logins[telegram]);
        return;
      }
      return None;
    }

    /** The login endpoint: identity and session in one transaction. */
    method Authenticate(c: Context, telegram: int, newcomer: Id, session: Id) returns (error: Option<Error>)
      requires newcomer !in users && session !in sessions
      modifies this
      ensures error == Answer(old(Snapshot()), c, AskLogin(telegram, newcomer, session))
      ensures Snapshot() == Exec(old(Snapshot()), c, AskLogin(telegram, newcomer, session))
    {
      var before := Snapshot();
      error := UpsertTelegramIdentity(c, telegram, newcomer);
      if error.Some? {
        return;
      }
      if telegram in logins {
        sessions := sessions[session := logins[telegram]];
      }
      error := Commit(before, c.holders);
    }

    /** The rotation's own writes, after every check has passed. */
    method ApplyRotation(c: Context, owner: Id, confirmed: Id)
      requires owner in users && confirmed in users
      modifies this
      ensures Snapshot() == Rotated(old(Snapshot()), c, owner, confirmed)
    {
      ChangeRole(owner, owner, Admin);
      AdmitOwner(c, owner, confirmed);
      ResolvePending(confirmed, true, owner);
      ChangeRole(confirmed, owner, Owner);
      RevokeSessions({owner, confirmed});
    }

    method AdmitOwner(c: Context, owner: Id, confirmed: Id)
      requires confirmed in users
      modifies this
      ensures Snapshot() == Admitted(old(Snapshot()), c, owner, confirmed)
    {
      if users[confirmed].access != Approved {
        TransitionUserAccess(confirmed, owner, Approved, c.now);
      } else {
        var u := users[confirmed];
        if u.approvedAt.None? {
          u := u.(approvedAt := Some(c.now));
        }
        if u.approvedBy.None? {
          u := u.(approvedBy := Some(owner));
        }
        users := users[confirmed := u];
      }
    }

    method RotateRecoveryOwner(c: Context, current: int, target: int, confirmed: Id) returns (error: Option<Error>)
      modifies this
      ensures error == Answer(old(Snapshot()), c, AskRotate(current, target, confirmed))
      ensures Snapshot() == Exec(old(Snapshot()), c, AskRotate(current, target, confirmed))
    {
      var before := Snapshot();
      error := RotationRefusal(before, c, current, target, confirmed);
      if error.Some? {
        return;
      }
      ApplyRotation(c, logins[current], confirmed);
      if OwnerOtherThan(Snapshot(), confirmed) || !IsOwner(Snapshot(), confirmed) {
        Rollback(before);
        return Some(VerificationFailed);
      }
      error := Commit(before, c.holders);
    }
  }
}
