/** Sessions: who can still authenticate after blocking, rotation and reset. */
module Sessions {
  import opened Journal
  import opened Policy
  import opened Identity
  import opened Footprints

  /** load_auth_context finds a user: the session is not revoked and its user has a login. */
  predicate Authenticates(db: Registry, session: Id) {
    session in db.sessions && HasLogin(db, db.sessions[session])
  }

  /** The users a request logs out. */
  function LoggedOut(db: Registry, r: Request): set<Id> {
    match r
    case AskUpdateAccess(_, target, access) =>
      if access == Blocked && target in db.users && db.users[target].access != Blocked then {target} else {}
    case AskReset(_, target, _) => {target}
    case AskRotate(_, _, _) => Writes(db, r)
    case _ => {}
  }

  lemma RevokedNone(db: Registry, users: set<Id>, user: Id)
    requires user in users
    ensures SessionsOf(Revoke(db, users), user) == {}
  {
  }

  lemma ResetSessions(db: Registry, c: Context, actor: Id, target: Id, telegram: int)
    requires Reset(db, c, actor, target, telegram).Ok?
    ensures SessionsOf(Reset(db, c, actor, target, telegram).db, target) == {}
  {
    RevokedNone(db, {target}, target);
    ResetColumns(db, c, actor, target, telegram);
  }

  /** Blocking and resetting a user, and rotating the owner, leave the users concerned without a session. */
  lemma LoggedOutAtOnce(db: Registry, c: Context, r: Request, user: Id)
    requires Distinct(db, r) && Body(db, c, r).Ok? && user in LoggedOut(db, r)
    ensures SessionsOf(Body(db, c, r).db, user) == {}
  {
    match r
    case AskUpdateAccess(actor, target, access) =>
      RevokedNone(Transition(db, target, actor, access, c.now), {target}, user);
    case AskReset(actor, target, tg) => ResetSessions(db, c, actor, target, tg);
    case AskRotate(current, _, confirmed) =>
      RotatedColumns(db, c, db.logins[current], confirmed);
      RevokedNone(db, {db.logins[current], confirmed}, user);
  }

  /** A reset also withdraws the notice of a pending request: unless a worker holds it, none will ever claim it. */
  lemma NoticeWithdrawn(db: Registry, c: Context, actor: Id, target: Id, telegram: int, now: int, settings: Outbox.Settings)
    requires Reset(db, c, actor, target, telegram).Ok? && target in db.pending && target in db.notices
    ensures var db' := Reset(db, c, actor, target, telegram).db;
            target !in db'.pending && target in db'.notices
            && (db.notices[target].claim.None? ==> !Outbox.Claimable(db'.notices[target], now, settings))
  {
    ResetColumns(db, c, actor, target, telegram);
  }

  // ----- Runs -----

  lemma LoginSessions(db: Registry, c: Context, tg: int, newcomer: Id, session: Id)
    requires SessionsOk(db) && Login(db, c, tg, newcomer, session).Ok?
    ensures SessionsOk(Login(db, c, tg, newcomer, session).db)
  {
    UpsertKeepsSessions(db, c, tg, newcomer);
    var db' := Login(db, c, tg, newcomer, session).db;
    forall s | s in db'.sessions ensures HasLogin(db', db'.sessions[s]) {
      if s != session {
        assert HasLogin(db, db.sessions[s]);
        var other :| other in db.logins && db.logins[other] == db.sessions[s];
        assert other in db'.logins && db'.logins[other] == db'.sessions[s];
      } else {
        assert tg in db'.logins && db'.logins[tg] == db'.sessions[s];
      }
    }
  }

  lemma ResetKeepsSessions(db: Registry, c: Context, actor: Id, target: Id, tg: int)
    requires SessionsOk(db) && Reset(db, c, actor, target, tg).Ok?
    ensures SessionsOk(Reset(db, c, actor, target, tg).db)
  {
    var db' := Reset(db, c, actor, target, tg).db;
    ResetColumns(db, c, actor, target, tg);
    forall s | s in db'.sessions ensures HasLogin(db', db'.sessions[s]) {
      assert HasLogin(db, db.sessions[s]);
      var other :| other in db.logins && db.logins[other] == db.sessions[s];
      assert other in db'.logins;
    }
  }

  lemma FewerSessions(db: Registry, db': Registry)
    requires SessionsOk(db) && db'.logins == db.logins
    requires forall s :: s in db'.sessions ==> s in db.sessions && db'.sessions[s] == db.sessions[s]
    ensures SessionsOk(db')
  {
    forall s | s in db'.sessions ensures HasLogin(db', db'.sessions[s]) {
      assert HasLogin(db, db.sessions[s]);
    }
  }

  lemma BodyKeepsSessions(db: Registry, c: Context, r: Request)
    requires SessionsOk(db) && Body(db, c, r).Ok?
    ensures SessionsOk(Body(db, c, r).db)
  {
    match r
    case AskLogin(tg, newcomer, session) => LoginSessions(db, c, tg, newcomer, session);
    case AskReset(actor, target, tg) => ResetKeepsSessions(db, c, actor, target, tg);
    case AskRotate(current, target, confirmed) =>
      RotatedColumns(db, c, db.logins[current], confirmed);
      FewerSessions(db, Body(db, c, r).db);
    case _ => FewerSessions(db, Body(db, c, r).db);
  }

  /** In every run each session not revoked authenticates. */
  lemma {:induction false} SessionsAuthenticate(steps: seq<(Context, Request)>, session: Id)
    requires session in Run(steps).sessions
    ensures Authenticates(Run(steps), session)
  {
    RunKeepsSessions(steps);
  }

  lemma {:induction false} RunKeepsSessions(steps: seq<(Context, Request)>)
    ensures SessionsOk(Run(steps))
  {
    if |steps| != 0 {
      RunKeepsSessions(steps[..|steps| - 1]);
      var front, last := Run(steps[..|steps| - 1]), steps[|steps| - 1];
      if Body(front, last.0, last.1).Ok? {
        BodyKeepsSessions(front, last.0, last.1);
      }
    }
  }

  /** No request gives an existing user a login. */
  lemma NoNewLogin(db: Registry, c: Context, r: Request, user: Id)
    requires Distinct(db, r) && Body(db, c, r).Ok? && user in db.users && !HasLogin(db, user)
    ensures user in Body(db, c, r).db.users && !HasLogin(Body(db, c, r).db, user)
  {
    BodyTouches(db, c, r);
    NewKeys(db, c, r);
  }

  lemma ResetHasNoLogin(db: Registry, c: Context, actor: Id, target: Id, tg: int)
    requires CoreOk(db) && Reset(db, c, actor, target, tg).Ok?
    ensures target in Reset(db, c, actor, target, tg).db.users && !HasLogin(Reset(db, c, actor, target, tg).db, target)
  {
    var db' := Reset(db, c, actor, target, tg).db;
    ResetColumns(db, c, actor, target, tg);
    assert forall other :: other in db.logins && other != tg ==> db.logins[other] != target;
  }

  /** A user detached from its login stays detached: whatever happens after, it has no login and none of its
      sessions authenticates again. */
  lemma {:induction false} DetachedForever(steps: seq<(Context, Request)>, n: nat, user: Id)
    requires n <= |steps| && user in Run(steps[..n]).users && !HasLogin(Run(steps[..n]), user)
    ensures user in Run(steps).users && !HasLogin(Run(steps), user) && SessionsOf(Run(steps), user) == {}
    decreases |steps|
  {
    RunKeepsSessions(steps);
    if n == |steps| {
      assert steps[..n] == steps;
    } else {
      assert steps[..|steps| - 1][..n] == steps[..n];
      DetachedForever(steps[..|steps| - 1], n, user);
      var front, last := Run(steps[..|steps| - 1]), steps[|steps| - 1];
      if Distinct(front, last.1) && Body(front, last.0, last.1).Ok? {
        NoNewLogin(front, last.0, last.1, user);
      }
    }
    NoSessionWithoutLogin(Run(steps), user);
  }

  lemma NoSessionWithoutLogin(db: Registry, user: Id)
    requires SessionsOk(db) && !HasLogin(db, user)
    ensures SessionsOf(db, user) == {}
  {
    assert forall s :: s in db.sessions ==> HasLogin(db, db.sessions[s]);
  }

  /** In particular after a reset: the old account never authenticates again. */
  lemma {:induction false} ResetForever(steps: seq<(Context, Request)>, n: nat, actor: Id, target: Id, tg: int)
    requires n < |steps| && steps[n].1 == AskReset(actor, target, tg)
    requires Body(Run(steps[..n]), steps[n].0, steps[n].1).Ok?
    requires Run(steps[..n + 1]) == Body(Run(steps[..n]), steps[n].0, steps[n].1).db
    ensures SessionsOf(Run(steps), target) == {} && !HasLogin(Run(steps), target)
  {
    RunsKeep(steps[..n], 0);
    ResetHasNoLogin(Run(steps[..n]), steps[n].0, actor, target, tg);
    DetachedForever(steps, n + 1, target);
  }
}
