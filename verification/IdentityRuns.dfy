/** Interleaved identity transactions at READ COMMITTED: each takes its locks one by one, reads and computes its
    writes, and commits or aborts later, while others do the same. The identity-management barrier and the
    actor's row are locked in share mode, the rows written exclusively. */
module IdentityRuns {
  import opened Journal
  import opened Policy
  import opened Identity
  import opened Footprints
  import opened IdentityViews
  import LockProtocol

  /** NewSession stands for the unique key of a session. */
  datatype Resource = Row(user: Id) | Telegram(telegram: int) | NewSession(session: Id) | Barrier

  datatype Lock = Lock(on: Resource, exclusive: bool)

  predicate Conflict(a: Lock, b: Lock) {
    a.on == b.on && (a.exclusive || b.exclusive)
  }

  function Locks(db: Registry, c: Context, r: Request): set<Lock> {
    (set u | u in Reads(db, r) :: Lock(Row(u), !Paired(r) || u == r.target))
    + (if Paired(r) then {Lock(Barrier, false)} else if Exclusive(c, r) then {Lock(Barrier, true)} else {})
    + (if r.AskLogin? then {Lock(Telegram(r.telegram), true), Lock(NewSession(r.session), true)}
       else if r.AskReset? then {Lock(Telegram(r.telegram), true)} else {})
  }

  // ----- Private writes -----

  /** The rows a transaction has written, all about `users`, and the log rows it adds. */
  datatype Patch = Patch(
    users: set<Id>, rows: map<Id, User>, pending: set<Id>, logins: map<int, Id>, sessions: map<Id, Id>,
    notices: map<Id, Outbox.Row>, access: seq<Event<Access>>, roles: seq<Event<Role>>, decided: seq<Decision>)

  function Tail<T>(log: seq<T>, n: nat): seq<T> {
    if n <= |log| then log[n..] else []
  }

  function PatchOf(db: Registry, after: Registry, users: set<Id>): Patch {
    Patch(users,
          map u | u in after.users && u in users :: after.users[u],
          set u | u in after.pending && u in users,
          map tg | tg in after.logins && after.logins[tg] in users :: after.logins[tg],
          map s | s in after.sessions && after.sessions[s] in users :: after.sessions[s],
          map u | u in after.notices && u in users :: after.notices[u],
          Tail(after.accessLog, |db.accessLog|), Tail(after.roleLog, |db.roleLog|), Tail(after.decided, |db.decided|))
  }

  /** The committed rows with a transaction's writes over them. */
  function Apply(db: Registry, p: Patch): Registry {
    Registry((map u | u in db.users && u !in p.users :: db.users[u]) + p.rows,
             (map tg | tg in db.logins && db.logins[tg] !in p.users :: db.logins[tg]) + p.logins,
             (db.pending - p.users) + p.pending,
             db.decided + p.decided, db.accessLog + p.access, db.roleLog + p.roles,
             (map s | s in db.sessions && db.sessions[s] !in p.users :: db.sessions[s]) + p.sessions,
             (map u | u in db.notices && u !in p.users :: db.notices[u]) + p.notices)
  }

  // ----- The machine -----

  datatype Tx = Tx(context: Context, request: Request, held: set<Lock>, patch: Option<Patch>)

  /** `commits` lists the committed requests in the order they committed. */
  datatype World = World(committed: Registry, live: map<Id, Tx>, commits: seq<(Context, Request)>)

  datatype Step =
    | Begin(tx: Id, context: Context, request: Request)
    | Acquire(tx: Id, lock: Lock)
    | Execute(tx: Id)
    | Commit(tx: Id, accepted: bool) // whether the deferred triggers accept
    | Abort(tx: Id)

  function Update(w: World, t: Id, tx: Tx): World {
    w.(live := w.live[t := tx])
  }

  function End(w: World, t: Id): World {
    w.(live := w.live - {t})
  }

  predicate Free(w: World, t: Id, lock: Lock) {
    forall u, l :: u in w.live && u != t && l in w.live[u].held ==> !Conflict(l, lock)
  }

  function Exec(w: World, s: Step): World {
    if s.Begin? then if s.tx in w.live then w else Update(w, s.tx, Tx(s.context, s.request, {}, None))
    else if s.tx !in w.live then w
    else
      var tx := w.live[s.tx];
      match s
      case Begin(_, _, _) => w
      case Acquire(_, lock) => if Free(w, s.tx, lock) then Update(w, s.tx, tx.(held := tx.held + {lock})) else w
      case Execute(_) => ExecuteIn(w, s.tx)
      case Commit(_, accepted) =>
        if tx.patch.None? then w
        else if !accepted then End(w, s.tx)
        else End(w.(committed := Apply(w.committed, tx.patch.value), commits := w.commits + [Serial(tx)]), s.tx)
      case Abort(_) => End(w, s.tx)
  }

  /** All locks held: the request is carried out on committed rows, or refused. */
  function ExecuteIn(w: World, t: Id): World
    requires t in w.live
  {
    var tx, db := w.live[t], w.committed;
    if tx.patch.Some? || !(Locks(db, tx.context, tx.request) <= tx.held) then w
    else
      var result := Body(db, tx.context, tx.request);
      if Distinct(db, tx.request) && result.Ok?
      then Update(w, t, tx.(patch := Some(PatchOf(db, result.db, Writes(db, tx.request))))) else End(w, t)
  }

  /** The request as a serial run would carry it out: its own custody check has passed already. */
  function Serial(tx: Tx): (Context, Request) {
    (tx.context.(holders := {}), tx.request)
  }

  function Run(steps: seq<Step>): World {
    if |steps| == 0 then World(EMPTY, map[], []) else Exec(Run(steps[..|steps| - 1]), steps[|steps| - 1])
  }

  // ----- Patches -----

  /** Applying what a request wrote gives what the request computed. */
  lemma ApplyPatch(db: Registry, after: Registry, users: set<Id>)
    requires TouchesOnly(db, after, users)
    ensures Apply(db, PatchOf(db, after, users)) == after
  {
    var p := PatchOf(db, after, users);
    var db' := Apply(db, p);
    forall u ensures u !in users ==> SliceOf(after, u) == SliceOf(db, u) {
    }
    RowsApply(db, after, users);
    LoginsApply(db, after, users);
    SessionsApply(db, after, users);
    assert db'.pending == after.pending by {
      forall u ensures u in db'.pending <==> u in after.pending {
        assert u !in users ==> SliceOf(after, u).pending == SliceOf(db, u).pending;
      }
    }
    assert db'.accessLog == after.accessLog && db'.roleLog == after.roleLog && db'.decided == after.decided;
  }

  lemma RowsApply(db: Registry, after: Registry, users: set<Id>)
    requires TouchesOnly(db, after, users)
    ensures Apply(db, PatchOf(db, after, users)).users == after.users
    ensures Apply(db, PatchOf(db, after, users)).notices == after.notices
  {
    var db' := Apply(db, PatchOf(db, after, users));
    forall u ensures u in db'.users <==> u in after.users
             ensures u in db'.users ==> db'.users[u] == after.users[u]
             ensures u in db'.notices <==> u in after.notices
             ensures u in db'.notices ==> db'.notices[u] == after.notices[u]
    {
      assert u !in users ==> SliceOf(after, u) == SliceOf(db, u);
    }
  }

  lemma LoginsApply(db: Registry, after: Registry, users: set<Id>)
    requires TouchesOnly(db, after, users)
    ensures Apply(db, PatchOf(db, after, users)).logins == after.logins
  {
    var db' := Apply(db, PatchOf(db, after, users));
    forall u | u !in users ensures LoginsOf(after, u) == LoginsOf(db, u) {
      assert SliceOf(after, u).logins == SliceOf(db, u).logins;
    }
    forall tg ensures tg in db'.logins <==> tg in after.logins
              ensures tg in db'.logins && tg in after.logins ==> db'.logins[tg] == after.logins[tg]
    {
      if tg in after.logins && after.logins[tg] !in users {
        assert tg in LoginsOf(after, after.logins[tg]);
        assert tg in LoginsOf(db, after.logins[tg]);
      }
      if tg in db.logins && db.logins[tg] !in users {
        assert tg in LoginsOf(db, db.logins[tg]);
        assert tg in LoginsOf(after, db.logins[tg]);
      }
    }
  }

  lemma SessionsApply(db: Registry, after: Registry, users: set<Id>)
    requires TouchesOnly(db, after, users)
    ensures Apply(db, PatchOf(db, after, users)).sessions == after.sessions
  {
    var db' := Apply(db, PatchOf(db, after, users));
    forall u | u !in users ensures SessionsOf(after, u) == SessionsOf(db, u) {
      assert SliceOf(after, u).sessions == SliceOf(db, u).sessions;
    }
    forall s ensures s in db'.sessions <==> s in after.sessions
             ensures s in db'.sessions && s in after.sessions ==> db'.sessions[s] == after.sessions[s]
    {
      if s in after.sessions && after.sessions[s] !in users {
        assert s in SessionsOf(after, after.sessions[s]);
        assert s in SessionsOf(db, after.sessions[s]);
      }
      if s in db.sessions && db.sessions[s] !in users {
        assert s in SessionsOf(db, db.sessions[s]);
        assert s in SessionsOf(after, db.sessions[s]);
      }
    }
  }

  /** The same effect gives the same patch. */
  lemma SamePatch(a: Registry, a': Registry, b: Registry, b': Registry, users: set<Id>)
    requires Alike(a, a', b, b', users)
    ensures PatchOf(a, a', users) == PatchOf(b, b', users)
  {
    var p, q := PatchOf(a, a', users), PatchOf(b, b', users);
    forall u | u in users
      ensures (u in a'.users <==> u in b'.users) && (u in a'.users ==> a'.users[u] == b'.users[u])
      ensures u in a'.pending <==> u in b'.pending
      ensures (u in a'.notices <==> u in b'.notices) && (u in a'.notices ==> a'.notices[u] == b'.notices[u])
    {
      assert SliceOf(a', u) == SliceOf(b', u);
    }
    SameKeys(a', b', users);
    assert p.rows == q.rows && p.pending == q.pending && p.notices == q.notices;
  }

  lemma SameKeys(a: Registry, b: Registry, users: set<Id>)
    requires forall u :: u in users ==> SliceOf(a, u) == SliceOf(b, u)
    ensures (map tg | tg in a.logins && a.logins[tg] in users :: a.logins[tg])
         == (map tg | tg in b.logins && b.logins[tg] in users :: b.logins[tg])
    ensures (map s | s in a.sessions && a.sessions[s] in users :: a.sessions[s])
         == (map s | s in b.sessions && b.sessions[s] in users :: b.sessions[s])
  {
    forall tg, u | u in users
      ensures (tg in a.logins && a.logins[tg] == u) <==> (tg in b.logins && b.logins[tg] == u)
    {
      assert SliceOf(a, u) == SliceOf(b, u);
      assert tg in LoginsOf(a, u) <==> tg in LoginsOf(b, u);
    }
    forall s, u | u in users
      ensures (s in a.sessions && a.sessions[s] == u) <==> (s in b.sessions && b.sessions[s] == u)
    {
      assert SliceOf(a, u) == SliceOf(b, u);
      assert s in SessionsOf(a, u) <==> s in SessionsOf(b, u);
    }
  }

  // ----- The invariant -----

  /** A transaction that has carried out its request: on the rows now committed it would do just the same. */
  ghost predicate TxOk(db: Registry, tx: Tx) {
    tx.patch.Some? ==>
      && Distinct(db, tx.request) && Body(db, tx.context, tx.request).Ok?
      && Locks(db, tx.context, tx.request) <= tx.held
      && tx.patch.value == PatchOf(db, Body(db, tx.context, tx.request).db, Writes(db, tx.request))
  }

  predicate Apart(a: Tx, b: Tx) {
    forall k, l :: k in a.held && l in b.held ==> !Conflict(k, l)
  }

  ghost predicate Inv(w: World) {
    && (forall t :: t in w.live ==> TxOk(w.committed, w.live[t]))
    && (forall t, u :: t in w.live && u in w.live && t != u ==> Apart(w.live[t], w.live[u]))
    && w.committed == Identity.Run(w.commits)
  }

  /** What the locks of one transaction protect is not written by another. */
  lemma RowsApart(db: Registry, a: Tx, b: Tx, user: Id)
    requires Apart(a, b) && Locks(db, a.context, a.request) <= a.held && Locks(db, b.context, b.request) <= b.held
    requires user in Reads(db, a.request)
    ensures user !in Writes(db, b.request)
  {
    var r := b.request;
    var mine := Lock(Row(user), !Paired(a.request) || user == a.request.target);
    assert mine in Locks(db, a.context, a.request);
    assert user in Writes(db, r) ==> Lock(Row(user), true) in Locks(db, b.context, r) by {
      assert user in Writes(db, r) ==> user in Reads(db, r) && (!Paired(r) || user == r.target);
    }
    assert Conflict(mine, Lock(Row(user), true));
  }

  lemma ViewKept(db: Registry, done: Tx, tx: Tx)
    requires TxOk(db, done) && done.patch.Some? && TxOk(db, tx) && tx.patch.Some? && Apart(tx, done)
    ensures SameView(db, Body(db, done.context, done.request).db, tx.context, tx.request)
  {
    var r, db' := tx.request, Body(db, done.context, done.request).db;
    BodyTouches(db, done.context, done.request);
    forall u | u in Reads(db, r) ensures SliceOf(db, u) == SliceOf(db', u) {
      RowsApart(db, tx, done, u);
    }
    if r.AskLogin? {
      LoginViewKept(db, done, tx);
    }
    if Exclusive(tx.context, r) {
      assert Lock(Barrier, true) in Locks(db, tx.context, r);
      assert Exclusive(done.context, done.request) ==> Lock(Barrier, true) in Locks(db, done.context, done.request);
      assert Conflict(Lock(Barrier, true), Lock(Barrier, true));
      forall u ensures IsOwner(db, u) == IsOwner(db', u) {
        OwnersKept(db, done.context, done.request, u);
      }
    }
  }

  lemma LoginViewKept(db: Registry, done: Tx, tx: Tx)
    requires TxOk(db, done) && done.patch.Some? && TxOk(db, tx) && tx.patch.Some? && Apart(tx, done) && tx.request.AskLogin?
    requires forall u :: u in Reads(db, tx.request) ==> SliceOf(db, u) == SliceOf(Body(db, done.context, done.request).db, u)
    ensures var db' := Body(db, done.context, done.request).db; var r := tx.request;
            (r.telegram in db.logins <==> r.telegram in db'.logins) && (r.session in db.sessions <==> r.session in db'.sessions)
  {
    var r, q, db' := tx.request, done.request, Body(db, done.context, done.request).db;
    NewKeys(db, done.context, q);
    assert Lock(Telegram(r.telegram), true) in Locks(db, tx.context, r) && Lock(NewSession(r.session), true) in Locks(db, tx.context, r);
    if q.AskLogin? {
      assert Lock(Telegram(q.telegram), true) in Locks(db, done.context, q);
      assert Lock(NewSession(q.session), true) in Locks(db, done.context, q);
      assert !Conflict(Lock(Telegram(r.telegram), true), Lock(Telegram(q.telegram), true));
      assert !Conflict(Lock(NewSession(r.session), true), Lock(NewSession(q.session), true));
    }
    if r.telegram in db.logins {
      var user := db.logins[r.telegram];
      Rows(db, db', user);
      assert LoginOf(db, user, r.telegram);
      assert LoginOf(db', user, r.telegram);
    }
  }

  /** Another commit leaves an executed transaction as it is. */
  lemma TxStable(db: Registry, done: Tx, tx: Tx)
    requires TxOk(db, done) && done.patch.Some? && TxOk(db, tx) && Apart(tx, done)
    ensures TxOk(Body(db, done.context, done.request).db, tx)
  {
    if tx.patch.Some? {
      var db' := Body(db, done.context, done.request).db;
      ViewKept(db, done, tx);
      SameViewSameEffect(db, db', tx.context, tx.request);
      SamePatch(db, Body(db, tx.context, tx.request).db, db', Body(db', tx.context, tx.request).db, Writes(db, tx.request));
    }
  }

  /** A custody check can only refuse. */
  lemma HoldersOnlyRefuse(db: Registry, c: Context, r: Request)
    requires Body(db, c, r).Ok?
    ensures Body(db, c.(holders := {}), r) == Body(db, c, r)
  {
    match r
    case AskLogin(tg, newcomer, session) => LoginIgnoresHolders(db, c, tg, newcomer, session);
    case AskRotate(current, target, confirmed) =>
      assert RotationRefusal(db, c.(holders := {}), current, target, confirmed).None?;
    case _ =>
  }

  lemma LoginIgnoresHolders(db: Registry, c: Context, tg: int, newcomer: Id, session: Id)
    ensures Login(db, c.(holders := {}), tg, newcomer, session) == Login(db, c, tg, newcomer, session)
  {
    assert Upsert(db, c.(holders := {}), tg, newcomer) == Upsert(db, c, tg, newcomer);
  }

  /** A commit carries out the request on the rows then committed, as a serial run would. */
  lemma CommitIsSerial(db: Registry, tx: Tx)
    requires TxOk(db, tx) && tx.patch.Some?
    ensures Apply(db, tx.patch.value) == Body(db, tx.context, tx.request).db == Identity.Exec(db, Serial(tx).0, Serial(tx).1)
  {
    BodyTouches(db, tx.context, tx.request);
    ApplyPatch(db, Body(db, tx.context, tx.request).db, Writes(db, tx.request));
    HoldersOnlyRefuse(db, tx.context, tx.request);
  }

  // ----- Every step keeps the invariant -----

  lemma CommitKeeps(w: World, t: Id)
    requires Inv(w) && t in w.live && w.live[t].patch.Some?
    ensures Inv(Exec(w, Commit(t, true)))
  {
    var tx, w1 := w.live[t], Exec(w, Commit(t, true));
    CommitIsSerial(w.committed, tx);
    forall u | u in w1.live ensures TxOk(w1.committed, w1.live[u]) {
      TxStable(w.committed, tx, w.live[u]);
    }
    assert (w.commits + [Serial(tx)])[..|w.commits|] == w.commits;
  }

  lemma AcquireKeeps(w: World, t: Id, lock: Lock)
    requires Inv(w) && t in w.live
    ensures Inv(Exec(w, Acquire(t, lock)))
  {
    if Free(w, t, lock) {
      var w1 := Exec(w, Acquire(t, lock));
      forall u, v | u in w1.live && v in w1.live && u != v ensures Apart(w1.live[u], w1.live[v]) {
        assert Apart(w.live[u], w.live[v]);
        assert u == t ==> forall l :: l in w.live[v].held ==> !Conflict(l, lock);
        assert v == t ==> forall l :: l in w.live[u].held ==> !Conflict(l, lock);
      }
    }
  }

  lemma StepKeeps(w: World, s: Step)
    requires Inv(w)
    ensures Inv(Exec(w, s)) && w.commits <= Exec(w, s).commits
  {
    if s.tx in w.live {
      match s
      case Acquire(t, lock) => AcquireKeeps(w, t, lock);
      case Commit(t, accepted) =>
        if w.live[t].patch.Some? && accepted {
          CommitKeeps(w, t);
        }
      case _ =>
    }
  }

  /** Every interleaving is serializable: the committed registry is the one a serial run of the committed requests,
      in commit order, would have produced. */
  lemma {:induction false} Serializable(steps: seq<Step>, n: nat)
    requires n <= |steps|
    ensures Inv(Run(steps)) && Run(steps).committed == Identity.Run(Run(steps).commits)
    ensures Run(steps[..n]).commits <= Run(steps).commits
    decreases |steps|
  {
    if |steps| == 0 {
      assert steps[..n] == steps;
    } else {
      var front := steps[..|steps| - 1];
      if n == |steps| {
        Serializable(front, 0);
        assert steps[..n] == steps;
      } else {
        Serializable(front, n);
        assert front[..n] == steps[..n];
      }
      StepKeeps(Run(front), steps[|steps| - 1]);
    }
  }

  /** So under every interleaving there is at most one OWNER, who is APPROVED; a PENDING request exists only for a
      PENDING user; every user's events lead link by link to the current values; and once a committed state had an
      OWNER, every later one has exactly one. */
  lemma {:induction false} InterleavedRegistryOk(steps: seq<Step>, n: nat)
    requires n <= |steps|
    ensures RegistryOk(Run(steps).committed)
    ensures HasOwner(Run(steps[..n]).committed) ==> HasOwner(Run(steps).committed)
  {
    Serializable(steps, n);
    Serializable(steps[..n], 0);
    var early, all := Run(steps[..n]).commits, Run(steps).commits;
    RunsKeep(all, |early|);
    assert all[..|early|] == early;
  }

  // ----- A granted request can be carried out -----

  function ExecAll(w: World, steps: seq<Step>): World {
    if |steps| == 0 then w else Exec(ExecAll(w, steps[..|steps| - 1]), steps[|steps| - 1])
  }

  lemma Next(w: World, a: seq<Step>, s: Step)
    ensures ExecAll(w, a + [s]) == Exec(ExecAll(w, a), s)
  {
    assert (a + [s])[..|a|] == a;
  }

  lemma {:induction false} Chained(w: World, a: seq<Step>, b: seq<Step>)
    ensures ExecAll(w, a + b) == ExecAll(ExecAll(w, a), b)
  {
    if |b| == 0 {
      assert a + b == a;
    } else {
      Chained(w, a, b[..|b| - 1]);
      assert (a + b)[..|a + b| - 1] == a + b[..|b| - 1];
    }
  }

  lemma {:induction false} ContinuesRun(steps: seq<Step>, more: seq<Step>)
    ensures Run(steps + more) == ExecAll(Run(steps), more)
  {
    if |more| == 0 {
      assert steps + more == steps;
    } else {
      ContinuesRun(steps, more[..|more| - 1]);
      assert (steps + more)[..|steps + more| - 1] == steps + more[..|more| - 1];
    }
  }

  predicate Before(steps: seq<Step>, t: Id) {
    forall k :: 0 <= k < |steps| ==> steps[k].tx == t && !steps[k].Commit? && !steps[k].Abort?
  }

  predicate AllFree(w: World, locks: set<Lock>) {
    forall u, l, k :: u in w.live && l in w.live[u].held && k in locks ==> !Conflict(l, k)
  }

  lemma AcquireStep(w: World, t: Id, tx: Tx, lock: Lock)
    requires t !in w.live && AllFree(w, {lock})
    ensures Exec(Update(w, t, tx), Acquire(t, lock)) == Update(w, t, tx.(held := tx.held + {lock}))
  {
    assert Free(Update(w, t, tx), t, lock) by {
      forall u, l | u in w.live && l in w.live[u].held ensures !Conflict(l, lock) {
        assert lock in {lock};
      }
    }
    TwoUpdates(w, t, tx, tx.(held := tx.held + {lock}));
  }

  lemma AcquireOne(w: World, t: Id, tx: Tx, lock: Lock, locks: set<Lock>)
    requires t !in w.live && AllFree(w, locks) && lock in locks
    ensures ExecAll(Update(w, t, tx), [] + [Acquire(t, lock)]) == Update(w, t, tx.(held := tx.held + {lock}))
    ensures AllFree(w, locks - {lock})
  {
    assert AllFree(w, {lock});
    AcquireStep(w, t, tx, lock);
    Next(Update(w, t, tx), [], Acquire(t, lock));
  }

  lemma {:induction false} AcquireAll(w: World, t: Id, tx: Tx, locks: set<Lock>) returns (steps: seq<Step>)
    requires t !in w.live && AllFree(w, locks)
    ensures Before(steps, t) && ExecAll(Update(w, t, tx), steps) == Update(w, t, tx.(held := tx.held + locks))
    decreases |locks|
  {
    if locks == {} {
      steps := [];
      assert tx.held + locks == tx.held;
    } else {
      var lock :| lock in locks;
      var tx1 := tx.(held := tx.held + {lock});
      AcquireOne(w, t, tx, lock, locks);
      var rest := AcquireAll(w, t, tx1, locks - {lock});
      Chained(Update(w, t, tx), [] + [Acquire(t, lock)], rest);
      assert tx1.held + (locks - {lock}) == tx.held + locks;
      steps := [] + [Acquire(t, lock)] + rest;
    }
  }

  lemma ExecuteStep(w: World, t: Id, c: Context, r: Request)
    requires Distinct(w.committed, r) && Body(w.committed, c, r).Ok?
    ensures var locks := Locks(w.committed, c, r);
            Exec(Update(w, t, Tx(c, r, locks, None)), Execute(t))
            == Update(w, t, Tx(c, r, locks, Some(PatchOf(w.committed, Body(w.committed, c, r).db, Writes(w.committed, r)))))
  {
    var tx := Tx(c, r, Locks(w.committed, c, r), None);
    ExecutesIn(Update(w, t, tx), t);
    TwoUpdates(w, t, tx, tx.(patch := Some(PatchOf(w.committed, Body(w.committed, c, r).db, Writes(w.committed, r)))));
  }

  lemma ExecutesIn(w: World, t: Id)
    requires t in w.live && w.live[t].patch.None? && Distinct(w.committed, w.live[t].request)
    requires Locks(w.committed, w.live[t].context, w.live[t].request) <= w.live[t].held
    requires Body(w.committed, w.live[t].context, w.live[t].request).Ok?
    ensures var tx := w.live[t];
            Exec(w, Execute(t)) == Update(w, t, tx.(patch := Some(
              PatchOf(w.committed, Body(w.committed, tx.context, tx.request).db, Writes(w.committed, tx.request)))))
  {
  }

  lemma TwoUpdates(w: World, t: Id, a: Tx, b: Tx)
    ensures Update(Update(w, t, a), t, b) == Update(w, t, b)
  {
  }

  lemma CommitStep(w: World, t: Id, tx: Tx)
    requires t !in w.live && tx.patch.Some? && TxOk(w.committed, tx)
    ensures Exec(Update(w, t, tx), Commit(t, true))
         == w.(committed := Body(w.committed, tx.context, tx.request).db, commits := w.commits + [Serial(tx)])
  {
    CommitIsSerial(w.committed, tx);
    assert Update(w, t, tx).live - {t} == w.live;
  }

  /** Taking the locks and executing. */
  lemma Executing(w: World, t: Id, c: Context, r: Request) returns (steps: seq<Step>)
    requires t !in w.live && Distinct(w.committed, r) && Body(w.committed, c, r).Ok? && AllFree(w, Locks(w.committed, c, r))
    ensures Before(steps, t)
    ensures ExecAll(w, steps) == Update(w, t, Tx(c, r, Locks(w.committed, c, r),
                                   Some(PatchOf(w.committed, Body(w.committed, c, r).db, Writes(w.committed, r)))))
  {
    var locking := Locking(w, t, c, r, Locks(w.committed, c, r));
    Next(w, locking, Execute(t));
    ExecuteStep(w, t, c, r);
    steps := locking + [Execute(t)];
  }

  lemma Locking(w: World, t: Id, c: Context, r: Request, locks: set<Lock>) returns (steps: seq<Step>)
    requires t !in w.live && AllFree(w, locks)
    ensures Before(steps, t) && ExecAll(w, steps) == Update(w, t, Tx(c, r, locks, None))
  {
    var locking := AcquireAll(w, t, Tx(c, r, {}, None), locks);
    Next(w, [], Begin(t, c, r));
    Chained(w, [] + [Begin(t, c, r)], locking);
    assert {} + locks == locks;
    steps := [] + [Begin(t, c, r)] + locking;
  }

  /** From every reachable world, a request whose locks nobody holds and which succeeds on the committed rows can be
      carried out by a transaction of its own: the registry is then the one the request asks for. */
  lemma {:induction false} GrantedIsCommitted(before: seq<Step>, t: Id, c: Context, r: Request) returns (steps: seq<Step>)
    requires t !in Run(before).live && Distinct(Run(before).committed, r) && Body(Run(before).committed, c, r).Ok?
    requires AllFree(Run(before), Locks(Run(before).committed, c, r))
    ensures Run(before + steps).committed == Body(Run(before).committed, c, r).db && Run(before + steps).live == Run(before).live
  {
    var w := Run(before);
    var executing := Executing(w, t, c, r);
    Next(w, executing, Commit(t, true));
    CommitStep(w, t, Tx(c, r, Locks(w.committed, c, r),
                        Some(PatchOf(w.committed, Body(w.committed, c, r).db, Writes(w.committed, r)))));
    steps := executing + [Commit(t, true)];
    ContinuesRun(before, steps);
  }

  lemma RollBackOne(w: World, t: Id)
    requires t in w.live
    ensures ExecAll(w, [] + [Abort(t)]) == w.(live := w.live - {t})
  {
    Next(w, [], Abort(t));
  }

  lemma {:induction false} RollBackAll(w: World) returns (steps: seq<Step>)
    ensures ExecAll(w, steps) == w.(live := map[])
    decreases |w.live.Keys|
  {
    if w.live.Keys != {} {
      var t := LockProtocol.SomeMember(w.live.Keys);
      assert (w.live - {t}).Keys == w.live.Keys - {t};
      RollBackOne(w, t);
      var rest := RollBackAll(w.(live := w.live - {t}));
      Chained(w, [] + [Abort(t)], rest);
      steps := [] + [Abort(t)] + rest;
    } else {
      steps := [];
      assert w.live == map[];
    }
  }

  lemma Rejoined(a: seq<Step>, b: seq<Step>, c: seq<Step>)
    ensures a + b + c == a + (b + c)
  {
  }

  /** Whatever transactions are under way, once they are rolled back a request that succeeds on the committed rows is
      carried out. */
  lemma {:induction false} NeverBlocked(before: seq<Step>, t: Id, c: Context, r: Request) returns (steps: seq<Step>)
    requires Distinct(Run(before).committed, r) && Body(Run(before).committed, c, r).Ok?
    ensures Run(before + steps).committed == Body(Run(before).committed, c, r).db && Run(before + steps).live == map[]
  {
    var freeing := RollBackAll(Run(before));
    ContinuesRun(before, freeing);
    assert Run(before + freeing) == Run(before).(live := map[]);
    var carrying := GrantedIsCommitted(before + freeing, t, c, r);
    Rejoined(before, freeing, carrying);
    steps := freeing + carrying;
  }
}
