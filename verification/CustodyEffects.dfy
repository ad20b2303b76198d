/** What the combined machine achieves: a movement that fits can be booked and a request that is granted can be
    carried out, from every reachable world. */
module CustodyEffects {
  import opened Journal
  import opened Policy
  import opened Booking
  import opened CustodyRuns
  import L = LedgerRuns
  import LE = LedgerEffects
  import I = IdentityRuns
  import Identity
  import Footprints
  import LockProtocol

  function ExecAll(w: World, steps: seq<Step>): World {
    if |steps| == 0 then w else Exec(ExecAll(w, steps[..|steps| - 1]), steps[|steps| - 1])
  }

  lemma Next(w: World, a: seq<Step>, s: Step)
    ensures ExecAll(w, a + [s]) == Exec(ExecAll(w, a), s)
  {
    assert (a + [s])[..|a|] == a;
  }

  lemma {:induction false} Chained(w: World, a: seq<Step>, b: seq<Step>)
    ensures ExecAll(w, a + b) == ExecAll(ExecAll(w, a), b)
  {
    if |b| == 0 {
      assert a + b == a;
    } else {
      Chained(w, a, b[..|b| - 1]);
      assert (a + b)[..|a + b| - 1] == a + b[..|b| - 1];
    }
  }

  lemma {:induction false} ContinuesRun(steps: seq<Step>, more: seq<Step>)
    ensures Run(steps + more) == ExecAll(Run(steps), more)
  {
    if |more| == 0 {
      assert steps + more == steps;
    } else {
      ContinuesRun(steps, more[..|more| - 1]);
      assert (steps + more)[..|steps + more| - 1] == steps + more[..|more| - 1];
    }
  }

  function Moves(steps: seq<L.Step>): seq<Step> {
    seq(|steps|, k requires 0 <= k < |steps| => Move(steps[k]))
  }

  // ----- Movements -----

  /** Statements other than refreshes reach the ledger as they are. */
  lemma {:induction false} PlainMoves(w: World, t: Id, steps: seq<L.Step>)
    requires LE.Own(steps, t) && LE.NoRefresh(steps)
    ensures var w1 := ExecAll(w, Moves(steps));
            && w1.ledger == LE.ExecAll(w.ledger, steps) && w1.identity == w.identity && w1.validated == w.validated
            && (forall p :: p != Mover(t) && p in w1.holds ==> p in w.holds && w1.holds[p] == w.holds[p])
            && (forall p :: p in w.holds ==> p in w1.holds && (p != Mover(t) ==> w1.holds[p] == w.holds[p]))
  {
    if |steps| != 0 {
      var front, s := steps[..|steps| - 1], steps[|steps| - 1];
      PlainMoves(w, t, front);
      assert Moves(steps)[..|steps| - 1] == Moves(front);
      var w0 := ExecAll(w, Moves(front));
      MoveIssues(w0, s);
      BeginOnLive(w0.ledger, s);
    }
  }

  lemma BeginOnLive(l: L.World, s: L.Step)
    ensures s.Begin? && s.tx in l.live ==> L.Exec(l, s) == l
  {
  }

  /** The user whose custody row a movement writes may hold it and is locked for the transaction. */
  predicate Cleared(w: World, t: Id) {
    t in w.ledger.live && w.ledger.live[t].draft.custody.Some? ==>
      && w.ledger.live[t].draft.custody.value in Held(w, Mover(t))
      && MayHold(w.identity.committed, w.ledger.live[t].draft.custody.value)
  }

  lemma ClosingStep(w: World, t: Id, s: L.Step)
    requires Cleared(w, t) && (s == L.RefreshNext(t, true) || s == L.Commit(t))
    ensures MoveIn(w, s) == w.(ledger := L.Exec(w.ledger, s)) && Cleared(MoveIn(w, s), t)
  {
    KeepsDraft(w.ledger, t, s);
  }

  lemma KeepsDraft(l: L.World, t: Id, s: L.Step)
    requires s == L.RefreshNext(t, true) || s == L.Commit(t)
    ensures t in L.Exec(l, s).live ==> t in l.live && L.Exec(l, s).live[t].draft == l.live[t].draft
  {
  }

  lemma {:induction false} ClosingMoves(w: World, t: Id, steps: seq<L.Step>)
    requires LE.Closing(steps, t) && Cleared(w, t)
    ensures ExecAll(w, Moves(steps)) == w.(ledger := LE.ExecAll(w.ledger, steps)) && Cleared(ExecAll(w, Moves(steps)), t)
  {
    if |steps| != 0 {
      var front := steps[..|steps| - 1];
      ClosingMoves(w, t, front);
      assert Moves(steps)[..|steps| - 1] == Moves(front);
      ClosingStep(ExecAll(w, Moves(front)), t, steps[|steps| - 1]);
    }
  }

  /** Nobody holds the user's lock. */
  predicate HolderFree(w: World, user: Id) {
    forall p :: p in w.holds ==> user !in Held(w, p)
  }

  /** What the triggers of both machines ask of a movement. */
  predicate Bookable(w: World, t: Id, m: Movement) {
    && t !in w.ledger.live && LE.Admissible(w.ledger, m) && LE.FreeFor(w.ledger, t, LE.Needed(m))
    && (m.custody.Some? ==> MayHold(w.identity.committed, m.custody.value) && HolderFree(w, m.custody.value))
  }

  /** Header, lines and the holder's lock. */
  lemma Opening(w: World, t: Id, m: Movement) returns (steps: seq<Step>)
    requires L.Inv(w.ledger) && Bookable(w, t, m)
    ensures var w1 := ExecAll(w, steps);
            w1.identity == w.identity && Cleared(w1, t) && L.Inv(w1.ledger) && LE.Opened(w.ledger, t, m, w1.ledger)
  {
    var writing := OpeningMoves(w, t, m);
    var w1 := ExecAll(w, writing);
    steps := writing;
    if m.custody.Some? {
      steps := writing + [LockHolder(Mover(t), m.custody.value)];
      Next(w, writing, LockHolder(Mover(t), m.custody.value));
      OpeningLock(w, w1, t, m.custody.value);
    }
  }

  lemma OpeningMoves(w: World, t: Id, m: Movement) returns (steps: seq<Step>)
    requires L.Inv(w.ledger) && t !in w.ledger.live && LE.Admissible(w.ledger, m) && LE.FreeFor(w.ledger, t, LE.Needed(m))
    ensures var w1 := ExecAll(w, steps);
            && w1.identity == w.identity && L.Inv(w1.ledger) && LE.Opened(w.ledger, t, m, w1.ledger)
            && (forall p :: p != Mover(t) && p in w1.holds ==> p in w.holds && w1.holds[p] == w.holds[p])
  {
    var opening := LE.Opening(w.ledger, t, m);
    PlainMoves(w, t, opening);
    steps := Moves(opening);
  }

  lemma OpeningLock(w: World, w1: World, t: Id, user: Id)
    requires HolderFree(w, user) && t !in w.ledger.live && t in w1.ledger.live && w1.ledger.live - {t} == w.ledger.live
    requires w1.identity == w.identity
    requires forall p :: p != Mover(t) && p in w1.holds ==> p in w.holds && w1.holds[p] == w.holds[p]
    ensures var w2 := LockIn(w1, Mover(t), user);
            w2.ledger == w1.ledger && w2.identity == w1.identity && user in Held(w2, Mover(t))
  {
    forall p | p in w1.holds && p != Mover(t) ensures user !in Held(w1, p) {
      assert p in w.holds && w1.holds[p] == w.holds[p];
      assert Live(w1, p) == Live(w, p);
    }
  }

  lemma BooksAlone(w: World, t: Id, m: Movement) returns (steps: seq<Step>)
    requires L.Inv(w.ledger) && Bookable(w, t, m)
    ensures var w1, m1 := ExecAll(w, steps), m.(seqNo := w.ledger.nextSeq);
            && w1.identity == w.identity && w1.ledger.live == w.ledger.live
            && w1.ledger.journal == w.ledger.journal + [m1] && Booked(w.ledger.journal, m1, w.ledger.tables, w1.ledger.tables)
  {
    var opening := Opening(w, t, m);
    var w1 := ExecAll(w, opening);
    var finishing := LE.Finishing(w1.ledger, t);
    ClosingMoves(w1, t, finishing);
    Chained(w, opening, Moves(finishing));
    steps := opening + Moves(finishing);
  }

  /** From every reachable world a movement that fits, whose locks nobody holds and whose custody user may hold
      equipment, can be booked, line by line, with the next number. */
  lemma {:induction false} FittingIsBooked(before: seq<Step>, t: Id, m: Movement) returns (steps: seq<Step>)
    requires Bookable(Run(before), t, m)
    ensures var w, w1, m1 := Run(before), Run(before + steps), m.(seqNo := Run(before).ledger.nextSeq);
            && w1.identity == w.identity && w1.ledger.live == w.ledger.live
            && w1.ledger.journal == w.ledger.journal + [m1] && Booked(w.ledger.journal, m1, w.ledger.tables, w1.ledger.tables)
  {
    RunKeeps(before);
    steps := BooksAlone(Run(before), t, m);
    ContinuesRun(before, steps);
  }

  // ----- Identity requests -----

  function Manages(steps: seq<I.Step>): seq<Step> {
    seq(|steps|, k requires 0 <= k < |steps| => Manage(steps[k]))
  }

  /** Up to its execution an identity transaction goes on as in its own machine. */
  lemma {:induction false} PlainManages(w: World, t: Id, steps: seq<I.Step>)
    requires I.Before(steps, t)
    ensures var w1 := ExecAll(w, Manages(steps));
            && w1.identity == I.ExecAll(w.identity, steps) && w1.ledger == w.ledger
            && (forall p :: p != Officer(t) && p in w1.holds ==> p in w.holds && w1.holds[p] == w.holds[p])
  {
    if |steps| != 0 {
      var front, s := steps[..|steps| - 1], steps[|steps| - 1];
      PlainManages(w, t, front);
      assert Manages(steps)[..|steps| - 1] == Manages(front);
      BegunTwice(ExecAll(w, Manages(front)).identity, s);
    }
  }

  lemma BegunTwice(i: I.World, s: I.Step)
    ensures s.Begin? && s.tx in i.live ==> I.Exec(i, s) == i
  {
  }

  /** The user's lock is free or already the transaction's, and the deferred trigger has nothing against the change. */
  predicate MayValidate(w: World, t: Id, user: Id)
    requires t in w.identity.live && w.identity.live[t].patch.Some?
  {
    var p := w.identity.live[t].patch.value;
    && (forall q :: q in w.holds && q != Officer(t) ==> user !in Held(w, q))
    && (user in p.rows && !Eligible(StandingOf(p.rows[user])) ==> !HasRow(w.ledger.tables, user))
  }

  lemma ValidateOne(w: World, t: Id, user: Id)
    requires t in w.identity.live && w.identity.live[t].patch.Some? && MayValidate(w, t, user)
    ensures var w1 := ValidateIn(LockIn(w, Officer(t), user), t, user);
            && w1.ledger == w.ledger && w1.identity == w.identity && Validated(w1, t) == Validated(w, t) + {user}
            && (forall q :: q != Officer(t) ==> Held(w1, q) == Held(w, q)) && (forall q :: q in w1.holds ==> q in w.holds || q == Officer(t))
  {
  }

  lemma ValidateFirst(w: World, t: Id, user: Id, users: set<Id>)
    requires t in w.identity.live && w.identity.live[t].patch.Some? && user in users
    requires forall u :: u in users ==> MayValidate(w, t, u)
    ensures var w1 := ExecAll(w, [] + [LockHolder(Officer(t), user)] + [Validate(t, user)]);
            && w1.ledger == w.ledger && w1.identity == w.identity && Validated(w1, t) == Validated(w, t) + {user}
            && forall u :: u in users ==> MayValidate(w1, t, u)
  {
    Next(w, [], LockHolder(Officer(t), user));
    Next(w, [] + [LockHolder(Officer(t), user)], Validate(t, user));
    ValidateOne(w, t, user);
    var w1 := ValidateIn(LockIn(w, Officer(t), user), t, user);
    forall u | u in users ensures MayValidate(w1, t, u) {
      assert MayValidate(w, t, u);
    }
  }

  lemma {:induction false} ValidateAll(w: World, t: Id, users: set<Id>) returns (steps: seq<Step>)
    requires t in w.identity.live && w.identity.live[t].patch.Some? && forall u :: u in users ==> MayValidate(w, t, u)
    ensures var w1 := ExecAll(w, steps);
            w1.ledger == w.ledger && w1.identity == w.identity && users <= Validated(w1, t)
    ensures Validated(w, t) <= Validated(ExecAll(w, steps), t)
    decreases |users|
  {
    if users != {} {
      var user := LockProtocol.SomeMember(users);
      var first := [] + [LockHolder(Officer(t), user)] + [Validate(t, user)];
      ValidateFirst(w, t, user, users);
      var rest := ValidateAll(ExecAll(w, first), t, users - {user});
      Chained(w, first, rest);
      steps := first + rest;
      var w1 := ExecAll(w, steps);
      assert user in Validated(w1, t);
      assert users - {user} <= Validated(w1, t);
    } else {
      steps := [];
    }
  }

  /** What the locks and triggers of both machines ask of a request. */
  ghost predicate Doable(w: World, t: Id, c: Identity.Context, r: Identity.Request) {
    var db := w.identity.committed;
    && t !in w.identity.live && Identity.Distinct(db, r) && Identity.Body(db, c, r).Ok?
    && I.AllFree(w.identity, I.Locks(db, c, r))
    && forall u :: u in Changes(db, c, r) ==>
         && HolderFree(w, u)
         && (MayHold(Identity.Body(db, c, r).db, u) || !HasRow(w.ledger.tables, u))
  }

  /** The users whose role or access the request changes. */
  function Changes(db: Identity.Registry, c: Identity.Context, r: Identity.Request): set<Id>
    requires Identity.Body(db, c, r).Ok?
  {
    var db' := Identity.Body(db, c, r).db;
    set u | u in db.users && u in db'.users && StandingOf(db'.users[u]) != StandingOf(db.users[u])
  }

  lemma ChangedAreChanges(db: Identity.Registry, c: Identity.Context, r: Identity.Request)
    requires Identity.Distinct(db, r) && Identity.Body(db, c, r).Ok?
    ensures var p := I.PatchOf(db, Identity.Body(db, c, r).db, Footprints.Writes(db, r));
            && Changed(db, p) <= Changes(db, c, r)
            && (forall u :: u in Changed(db, p) ==> u in Identity.Body(db, c, r).db.users && p.rows[u] == Identity.Body(db, c, r).db.users[u])
  {
  }

  lemma ReadyToValidate(w: World, w1: World, t: Id, c: Identity.Context, r: Identity.Request, u: Id)
    requires Doable(w, t, c, r) && u in Changes(w.identity.committed, c, r) && w1.ledger == w.ledger
    requires forall p :: p != Officer(t) && p in w1.holds ==> p in w.holds && w1.holds[p] == w.holds[p]
    requires t in w1.identity.live && forall x :: x != t ==> (x in w1.identity.live <==> x in w.identity.live)
    requires w1.identity.live[t].patch
          == Some(I.PatchOf(w.identity.committed, Identity.Body(w.identity.committed, c, r).db, Footprints.Writes(w.identity.committed, r)))
    ensures MayValidate(w1, t, u)
  {
    forall q | q in w1.holds && q != Officer(t) ensures u !in Held(w1, q) {
      assert q in w.holds && w1.holds[q] == w.holds[q];
      assert Live(w1, q) == Live(w, q);
    }
  }

  lemma CommitsAlone(w: World, t: Id, c: Identity.Context, r: Identity.Request) returns (steps: seq<Step>)
    requires Doable(w, t, c, r)
    ensures var w1 := ExecAll(w, steps);
            && w1.ledger == w.ledger && w1.identity.live == w.identity.live
            && w1.identity.committed == Identity.Body(w.identity.committed, c, r).db
  {
    var db := w.identity.committed;
    var executing := I.Executing(w.identity, t, c, r);
    PlainManages(w, t, executing);
    var w1 := ExecAll(w, Manages(executing));
    var tx := w1.identity.live[t];
    ChangedAreChanges(db, c, r);
    forall u | u in Changed(db, tx.patch.value) ensures MayValidate(w1, t, u) {
      ReadyToValidate(w, w1, t, c, r, u);
    }
    var validating := ValidateAll(w1, t, Changed(db, tx.patch.value));
    Chained(w, Manages(executing), validating);
    Next(w, Manages(executing) + validating, Manage(I.Commit(t, true)));
    I.CommitStep(w.identity, t, tx);
    steps := Manages(executing) + validating + [Manage(I.Commit(t, true))];
  }

  /** From every reachable world a request that succeeds on the committed rows, whose locks nobody holds and whose changes
      the deferred trigger accepts, can be carried out. */
  lemma {:induction false} GrantedIsCommitted(before: seq<Step>, t: Id, c: Identity.Context, r: Identity.Request)
      returns (steps: seq<Step>)
    requires Doable(Run(before), t, c, r)
    ensures var w, w1 := Run(before), Run(before + steps);
            && w1.ledger == w.ledger && w1.identity.live == w.identity.live
            && w1.identity.committed == Identity.Body(w.identity.committed, c, r).db
  {
    steps := CommitsAlone(Run(before), t, c, r);
    ContinuesRun(before, steps);
  }
}
