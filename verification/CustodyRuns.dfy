/** Movement transactions and identity transactions in one interleaving. The custody row trigger of a movement
    and the deferred user trigger of an identity transaction take the same advisory lock per user. */
module CustodyRuns {
  import opened Journal
  import opened Policy
  import opened Projections
  import L = LedgerRuns
  import I = IdentityRuns
  import Identity
  import Footprints

  /** Who takes holder locks: a movement or an identity transaction. */
  datatype Party = Mover(tx: Id) | Officer(tx: Id)

  /** `holds` are the holder locks taken so far, `validated` the users whose deferred trigger has run; both count
      only while the transaction lives. */
  datatype World = World(ledger: L.World, identity: I.World, holds: map<Party, set<Id>>, validated: map<Id, set<Id>>)

  datatype Step =
    | Move(move: L.Step)
    | Manage(manage: I.Step)
    | LockHolder(party: Party, user: Id)
    | Validate(tx: Id, user: Id)

  predicate Live(w: World, p: Party) {
    match p
    case Mover(t) => t in w.ledger.live
    case Officer(t) => t in w.identity.live
  }

  function Held(w: World, p: Party): set<Id> {
    if Live(w, p) && p in w.holds then w.holds[p] else {}
  }

  function Validated(w: World, t: Id): set<Id> {
    if t in w.identity.live && t in w.validated then w.validated[t] else {}
  }

  function StandingOf(u: Identity.User): Standing {
    Standing(u.role, u.access)
  }

  predicate MayHold(db: Identity.Registry, user: Id) {
    user in db.users && Eligible(StandingOf(db.users[user]))
  }

  predicate HasRow(t: Tables, user: Id) {
    exists key :: key in t.custody && key.0 == user
  }

  /** The existing users whose role or access a transaction changes. */
  function Changed(db: Identity.Registry, p: I.Patch): set<Id> {
    set u | u in p.rows && u in db.users && StandingOf(p.rows[u]) != StandingOf(db.users[u])
  }

  // ----- Statements -----

  /** The refresh would write a custody row of this user. */
  function RowFor(l: L.World, t: Id): Option<Id>
    requires t in l.live
  {
    var tx := l.live[t];
    if tx.phase.Lined? && tx.phase.refreshed < |tx.draft.lines| && tx.draft.custody.Some?
       && CustodySum(l.journal + [tx.draft], tx.draft.lines[tx.phase.refreshed].item, tx.draft.custody.value) != 0
    then tx.draft.custody else None
  }

  function MoveIn(w: World, s: L.Step): World {
    if s.Begin? then
      if s.tx in w.ledger.live then w
      else w.(ledger := L.Exec(w.ledger, s), holds := w.holds[Mover(s.tx) := {}])
    else if s.RefreshNext? && s.tx in w.ledger.live && RowFor(w.ledger, s.tx).Some?
            && RowFor(w.ledger, s.tx).value !in Held(w, Mover(s.tx)) then w
    else w.(ledger := L.Exec(w.ledger, Issued(w, s)))
  }

  /** The statement that reaches the ledger: a refresh with the verdict of the holder trigger. */
  function Issued(w: World, s: L.Step): L.Step {
    if s.RefreshNext? && s.tx in w.ledger.live then
      var user := RowFor(w.ledger, s.tx);
      L.RefreshNext(s.tx, user.None? || MayHold(w.identity.committed, user.value))
    else s
  }

  function ManageIn(w: World, s: I.Step): World {
    if s.Begin? then
      if s.tx in w.identity.live then w
      else w.(identity := I.Exec(w.identity, s), holds := w.holds[Officer(s.tx) := {}], validated := w.validated[s.tx := {}])
    else if s.Commit? && s.tx in w.identity.live && w.identity.live[s.tx].patch.Some? then
      if s.accepted && !(Changed(w.identity.committed, w.identity.live[s.tx].patch.value) <= Validated(w, s.tx)) then w
      else w.(identity := I.Exec(w.identity, s))
    else w.(identity := I.Exec(w.identity, s))
  }

  /** The deferred trigger for one changed user, at commit. */
  function ValidateIn(w: World, t: Id, user: Id): World {
    if t !in w.identity.live || w.identity.live[t].patch.None? || user !in Held(w, Officer(t)) then w
    else
      var p := w.identity.live[t].patch.value;
      if user in p.rows && !Eligible(StandingOf(p.rows[user])) && HasRow(w.ledger.tables, user)
      then w.(identity := I.End(w.identity, t))
      else w.(validated := w.validated[t := Validated(w, t) + {user}])
  }

  function LockIn(w: World, p: Party, user: Id): World {
    if !Live(w, p) || exists q :: q in w.holds && q != p && user in Held(w, q) then w
    else w.(holds := w.holds[p := Held(w, p) + {user}])
  }

  function Exec(w: World, s: Step): World {
    match s
    case Move(move) => MoveIn(w, move)
    case Manage(manage) => ManageIn(w, manage)
    case LockHolder(p, user) => LockIn(w, p, user)
    case Validate(t, user) => ValidateIn(w, t, user)
  }

  function Run(steps: seq<Step>): World {
    if |steps| == 0 then World(L.START, I.World(Identity.EMPTY, map[], []), map[], map[])
    else Exec(Run(steps[..|steps| - 1]), steps[|steps| - 1])
  }

  // ----- The invariant -----

  predicate LocksApart(w: World) {
    forall p, q :: p in w.holds && q in w.holds && p != q ==> Held(w, p) !! Held(w, q)
  }

  /** Whoever has a committed custody row may hold it. */
  predicate HoldersOk(w: World) {
    forall key :: key in w.ledger.tables.custody ==> MayHold(w.identity.committed, key.0)
  }

  /** A custody row written but not committed: its user is locked and may hold it. */
  predicate MoverOk(w: World, t: Id)
    requires t in w.ledger.live
  {
    var tx := w.ledger.live[t];
    tx.phase.Lined? ==>
      forall key :: key in tx.phase.writes.custody && tx.phase.writes.custody[key] != 0 ==>
        key.0 in Held(w, Mover(t)) && MayHold(w.identity.committed, key.0)
  }

  /** A validated user is locked, and has no custody row if it is about to become ineligible. */
  predicate OfficerOk(w: World, t: Id)
    requires t in w.identity.live
  {
    var tx := w.identity.live[t];
    && Validated(w, t) <= Held(w, Officer(t))
    && (tx.patch.None? ==> Validated(w, t) == {})
    && (tx.patch.Some? ==>
          forall u :: u in Validated(w, t) && u in tx.patch.value.rows && !Eligible(StandingOf(tx.patch.value.rows[u]))
                      ==> !HasRow(w.ledger.tables, u))
  }

  predicate Links(w: World) {
    && LocksApart(w) && HoldersOk(w)
    && (forall t :: t in w.ledger.live ==> Mover(t) in w.holds && MoverOk(w, t))
    && (forall t :: t in w.identity.live ==> Officer(t) in w.holds && OfficerOk(w, t))
  }

  ghost predicate Inv(w: World) {
    L.Inv(w.ledger) && I.Inv(w.identity) && Links(w)
  }

  // ----- Steps of the ledger -----

  /** A step concerns its own transaction; only a commit changes the tables. */
  lemma LedgerFrame(l: L.World, s: L.Step)
    ensures forall u :: u != s.tx ==> (u in L.Exec(l, s).live <==> u in l.live)
    ensures forall u :: u != s.tx && u in l.live ==> L.Exec(l, s).live[u] == l.live[u]
    ensures !s.Commit? ==> L.Exec(l, s).tables == l.tables
    ensures s.tx in L.Exec(l, s).live && !s.Begin? ==> s.tx in l.live
  {
  }

  /** Apart from refreshing, a step leaves the custody rows written as they are or starts with none. */
  lemma LedgerWrites(l: L.World, s: L.Step)
    requires s.tx in L.Exec(l, s).live && L.Exec(l, s).live[s.tx].phase.Lined? && !s.RefreshNext? && !s.Begin?
    ensures var after := L.Exec(l, s).live[s.tx].phase.writes.custody;
            after == map[] || (l.live[s.tx].phase.Lined? && after == l.live[s.tx].phase.writes.custody)
  {
  }

  lemma BegunStarts(l: L.World, s: L.Step)
    requires s.Begin? && s.tx !in l.live && s.tx in L.Exec(l, s).live
    ensures L.Exec(l, s).live[s.tx].phase.Starting?
  {
  }

  /** A refresh that leaves a custody row passed the holder check for it. */
  lemma RefreshedCustody(l: L.World, t: Id, holderOk: bool)
    requires L.Ready(l, t) && l.live[t].phase.Lined? && l.live[t].phase.refreshed < |l.live[t].draft.lines|
    requires L.RefreshIn(l, t, holderOk).Ok?
    ensures var tx := l.live[t]; var item := tx.draft.lines[tx.phase.refreshed].item;
            tx.draft.custody.Some? && Row(L.RefreshIn(l, t, holderOk).tables.custody, (tx.draft.custody.value, item)) != 0
            ==> RowFor(l, t) == tx.draft.custody && holderOk
  {
    FindAppended(l.journal, l.live[t].draft);
  }

  /** The custody rows after a refresh: those written before, or that of the movement's user. */
  lemma RecordedCustody(writes: Tables, m: Movement, item: Id, after: Tables, key: (Id, Id))
    requires key in L.Record(writes, m, item, after).custody
    ensures || (m.custody == Some(key.0) && key.1 == item && L.Record(writes, m, item, after).custody[key] == Row(after.custody, key))
            || (key in writes.custody && L.Record(writes, m, item, after).custody[key] == writes.custody[key])
  {
  }

  /** A refresh writes at most the custody row of the movement's user, and only if the holder check passed. */
  lemma RefreshedWrites(l: L.World, t: Id, holderOk: bool, key: (Id, Id))
    requires L.Ready(l, t)
    requires var l' := L.Exec(l, L.RefreshNext(t, holderOk));
             t in l'.live && l'.live[t].phase.Lined?
             && key in l'.live[t].phase.writes.custody && l'.live[t].phase.writes.custody[key] != 0
    ensures l.live[t].phase.Lined?
    ensures || (key in l.live[t].phase.writes.custody && l.live[t].phase.writes.custody[key] != 0)
            || (RowFor(l, t) == Some(key.0) && holderOk)
  {
    var tx := l.live[t];
    if tx.phase.Lined? && tx.phase.refreshed < |tx.draft.lines| {
      RefreshedCustody(l, t, holderOk);
      RecordedCustody(tx.phase.writes, tx.draft, tx.draft.lines[tx.phase.refreshed].item,
                      L.RefreshIn(l, t, holderOk).tables, key);
    }
  }

  /** A commit adds the custody rows the transaction wrote. */
  lemma CommittedCustody(l: L.World, t: Id, key: (Id, Id))
    requires key in L.Exec(l, L.Commit(t)).tables.custody && key !in l.tables.custody
    ensures t in l.live && l.live[t].phase.Lined? && t !in L.Exec(l, L.Commit(t)).live
    ensures key in l.live[t].phase.writes.custody && l.live[t].phase.writes.custody[key] != 0
  {
  }

  // ----- Steps of the registry -----

  lemma IdentityFrame(i: I.World, s: I.Step)
    ensures forall u :: u != s.tx ==> (u in I.Exec(i, s).live <==> u in i.live)
    ensures forall u :: u != s.tx && u in i.live ==> I.Exec(i, s).live[u] == i.live[u]
    ensures !s.Commit? ==> I.Exec(i, s).committed == i.committed
    ensures s.tx in I.Exec(i, s).live && !s.Begin? ==>
              s.tx in i.live && (i.live[s.tx].patch.Some? ==> I.Exec(i, s).live[s.tx].patch == i.live[s.tx].patch)
  {
  }

  /** A commit keeps every user, and changes the standing of those in `Changed` only. */
  lemma CommittedStandings(i: I.World, t: Id, user: Id)
    requires I.Inv(i) && t in i.live && i.live[t].patch.Some? && user in i.committed.users
    ensures var p, db' := i.live[t].patch.value, I.Apply(i.committed, i.live[t].patch.value);
            user in db'.users
            && (user !in Changed(i.committed, p) ==> StandingOf(db'.users[user]) == StandingOf(i.committed.users[user]))
            && (user in Changed(i.committed, p) ==> db'.users[user] == p.rows[user])
  {
    var tx := i.live[t];
    I.CommitIsSerial(i.committed, tx);
    Footprints.BodyTouches(i.committed, tx.context, tx.request);
  }

  // ----- Every step keeps the links -----

  /** A move waits or issues one statement. */
  lemma MoveIssues(w: World, s: L.Step)
    ensures MoveIn(w, s) == w || MoveIn(w, s).ledger == L.Exec(w.ledger, Issued(w, s))
    ensures Issued(w, s).tx == s.tx && (Issued(w, s).Commit? <==> s.Commit?) && (Issued(w, s).Begin? <==> s.Begin?)
    ensures !s.RefreshNext? ==> Issued(w, s) == s
    ensures MoveIn(w, s).identity == w.identity && MoveIn(w, s).validated == w.validated && (!s.Begin? ==> MoveIn(w, s).holds == w.holds)
    ensures s.Begin? && s.tx !in w.ledger.live ==> MoveIn(w, s).holds == w.holds[Mover(s.tx) := {}]
    ensures s.Begin? && s.tx in w.ledger.live ==> MoveIn(w, s) == w
  {
  }

  lemma MoveKeepsLocks(w: World, s: L.Step)
    requires Links(w)
    ensures var w1 := MoveIn(w, s);
            && (forall p :: Held(w1, p) == Held(w, p) || Held(w1, p) == {})
            && (forall p :: p != Mover(s.tx) ==> Held(w1, p) == Held(w, p))
            && (forall t :: t in w1.ledger.live ==> Mover(t) in w1.holds)
            && (forall p :: p in w.holds ==> p in w1.holds)
            && (s.tx in w1.ledger.live && !s.Begin? ==> Held(w1, Mover(s.tx)) == Held(w, Mover(s.tx)))
            && w1.identity == w.identity && w1.validated == w.validated && (!s.Begin? ==> w1.holds == w.holds)
  {
    MoveIssues(w, s);
    LedgerFrame(w.ledger, Issued(w, s));
  }

  /** The tables after a movement step: committed rows, and rows a locked and eligible user was waiting for. */
  lemma MovedRows(w: World, s: L.Step, key: (Id, Id))
    requires Links(w) && key in MoveIn(w, s).ledger.tables.custody && key !in w.ledger.tables.custody
    ensures Mover(s.tx) in w.holds && key.0 in Held(w, Mover(s.tx)) && MayHold(w.identity.committed, key.0)
  {
    MoveIssues(w, s);
    LedgerFrame(w.ledger, Issued(w, s));
    assert s.Commit?;
    CommittedCustody(w.ledger, s.tx, key);
    assert MoverOk(w, s.tx);
  }

  lemma MoveKeepsMover(w: World, s: L.Step, t: Id)
    requires L.Inv(w.ledger) && Links(w) && t in MoveIn(w, s).ledger.live
    ensures MoverOk(MoveIn(w, s), t)
  {
    var w1 := MoveIn(w, s);
    MoveKeepsLocks(w, s);
    MoveIssues(w, s);
    LedgerFrame(w.ledger, Issued(w, s));
    if t != s.tx {
      MoveOther(w, s, t);
    } else if s.Begin? {
      if t in w.ledger.live {
        assert MoverOk(w, t);
      } else {
        BegunStarts(w.ledger, s);
      }
    } else if s.RefreshNext? {
      RefreshKeepsMover(w, s);
    } else if w1.ledger.live[t].phase.Lined? {
      LedgerWrites(w.ledger, s);
      assert MoverOk(w, t);
    }
  }

  lemma MoveOther(w: World, s: L.Step, t: Id)
    requires Links(w) && t in MoveIn(w, s).ledger.live && t != s.tx
    ensures t in w.ledger.live && MoverOk(MoveIn(w, s), t)
  {
    MoveKeepsLocks(w, s);
    MoveIssues(w, s);
    LedgerFrame(w.ledger, Issued(w, s));
    assert MoverOk(w, t);
    assert MoveIn(w, s).ledger.live[t] == w.ledger.live[t];
  }

  lemma RefreshKeepsMover(w: World, s: L.Step)
    requires L.Inv(w.ledger) && Links(w) && s.RefreshNext? && s.tx in MoveIn(w, s).ledger.live
    ensures MoverOk(MoveIn(w, s), s.tx)
  {
    var w1, t := MoveIn(w, s), s.tx;
    MoveKeepsLocks(w, s);
    MoveIssues(w, s);
    LedgerFrame(w.ledger, Issued(w, s));
    if t in w.ledger.live && w1 != w && w1.ledger.live[t].phase.Lined? {
      var user := RowFor(w.ledger, t);
      var ok := user.None? || MayHold(w.identity.committed, user.value);
      assert w1.ledger == L.Exec(w.ledger, L.RefreshNext(t, ok));
      assert MoverOk(w, t);
      forall key | key in w1.ledger.live[t].phase.writes.custody && w1.ledger.live[t].phase.writes.custody[key] != 0
        ensures key.0 in Held(w1, Mover(t)) && MayHold(w.identity.committed, key.0)
      {
        RefreshedWrites(w.ledger, t, ok, key);
      }
    } else {
      assert MoverOk(w, t);
    }
  }

  lemma MoveKeepsOfficer(w: World, s: L.Step, t: Id)
    requires Links(w) && t in w.identity.live
    ensures OfficerOk(MoveIn(w, s), t)
  {
    var w1 := MoveIn(w, s);
    MoveKeepsLocks(w, s);
    assert OfficerOk(w, t);
    var tx := w.identity.live[t];
    if tx.patch.Some? {
      forall u | u in Validated(w, t) && u in tx.patch.value.rows && !Eligible(StandingOf(tx.patch.value.rows[u]))
        ensures !HasRow(w1.ledger.tables, u)
      {
        forall key | key in w1.ledger.tables.custody ensures key.0 != u {
          if key !in w.ledger.tables.custody {
            MovedRows(w, s, key);
            assert Held(w, Mover(s.tx)) !! Held(w, Officer(t));
          }
        }
      }
    }
  }

  lemma MoveKeeps(w: World, s: L.Step)
    requires L.Inv(w.ledger) && Links(w)
    ensures Links(MoveIn(w, s))
  {
    var w1 := MoveIn(w, s);
    MoveKeepsLocks(w, s);
    assert LocksApart(w1) by {
      forall p, q | p in w1.holds && q in w1.holds && p != q ensures Held(w1, p) !! Held(w1, q) {
        assert Held(w1, p) <= Held(w, p) && Held(w1, q) <= Held(w, q);
        assert p in w.holds && q in w.holds ==> Held(w, p) !! Held(w, q);
      }
    }
    forall key | key in w1.ledger.tables.custody ensures MayHold(w1.identity.committed, key.0) {
      if key !in w.ledger.tables.custody {
        MovedRows(w, s, key);
      }
    }
    forall t | t in w1.ledger.live ensures MoverOk(w1, t) {
      MoveKeepsMover(w, s, t);
    }
    forall t | t in w1.identity.live ensures OfficerOk(w1, t) {
      MoveKeepsOfficer(w, s, t);
    }
  }

  lemma ManageFrame(w: World, s: I.Step)
    ensures var w1 := ManageIn(w, s);
            && w1.ledger == w.ledger
            && (forall t :: t != s.tx ==> (t in w1.identity.live <==> t in w.identity.live))
            && (forall t :: t != s.tx && t in w.identity.live ==> w1.identity.live[t] == w.identity.live[t])
            && (s.Begin? && s.tx in w.identity.live ==> w1 == w)
            && (s.Begin? && s.tx !in w.identity.live ==>
                  && w1.holds == w.holds[Officer(s.tx) := {}] && w1.validated == w.validated[s.tx := {}]
                  && s.tx in w1.identity.live && w1.identity.live[s.tx].patch.None?)
            && (!s.Begin? ==> w1.holds == w.holds && w1.validated == w.validated)
            && (s.tx in w1.identity.live && !s.Begin? ==>
                  && s.tx in w.identity.live
                  && (w.identity.live[s.tx].patch.Some? ==> w1.identity.live[s.tx].patch == w.identity.live[s.tx].patch))
  {
    IdentityFrame(w.identity, s);
  }

  lemma ManageKeepsLocks(w: World, s: I.Step)
    requires Links(w)
    ensures var w1 := ManageIn(w, s);
            && (forall p :: Held(w1, p) == Held(w, p) || Held(w1, p) == {})
            && (forall p :: p != Officer(s.tx) ==> Held(w1, p) == Held(w, p))
            && (forall t :: t in w1.identity.live ==> Officer(t) in w1.holds)
            && (forall p :: p in w.holds ==> p in w1.holds)
  {
    ManageFrame(w, s);
  }

  /** An identity transaction that lives on keeps its locks, its writes and its validated users. */
  lemma ManageKeepsTx(w: World, s: I.Step, t: Id)
    requires Links(w) && t in ManageIn(w, s).identity.live && t in w.identity.live
    ensures var w1 := ManageIn(w, s);
            && Held(w1, Officer(t)) == Held(w, Officer(t)) && Validated(w1, t) == Validated(w, t)
            && (w.identity.live[t].patch.Some? ==> w1.identity.live[t].patch == w.identity.live[t].patch)
  {
    ManageFrame(w, s);
  }

  lemma ManageKeepsOfficer(w: World, s: I.Step, t: Id)
    requires Links(w) && t in ManageIn(w, s).identity.live
    ensures OfficerOk(ManageIn(w, s), t)
  {
    ManageFrame(w, s);
    if t in w.identity.live {
      ManageKeepsTx(w, s, t);
      assert OfficerOk(w, t);
    }
  }

  /** Whoever holds or is about to hold something keeps the right to, whatever identity transaction commits. */
  lemma ManageKeepsHolder(w: World, s: I.Step, user: Id)
    requires I.Inv(w.identity) && Links(w) && MayHold(w.identity.committed, user)
    requires HasRow(w.ledger.tables, user) || exists t :: t in w.ledger.live && user in Held(w, Mover(t))
    ensures MayHold(ManageIn(w, s).identity.committed, user)
  {
    IdentityFrame(w.identity, s);
    var w1 := ManageIn(w, s);
    if w1.identity.committed != w.identity.committed {
      var tx := w.identity.live[s.tx];
      assert s.Commit? && tx.patch.Some? && w1.identity.committed == I.Apply(w.identity.committed, tx.patch.value);
      CommittedStandings(w.identity, s.tx, user);
      if user in Changed(w.identity.committed, tx.patch.value) {
        assert OfficerOk(w, s.tx);
        assert user in Held(w, Officer(s.tx));
        assert forall t :: t in w.ledger.live ==> Held(w, Mover(t)) !! Held(w, Officer(s.tx));
      }
    }
  }

  lemma ManageKeeps(w: World, s: I.Step)
    requires I.Inv(w.identity) && Links(w)
    ensures Links(ManageIn(w, s))
  {
    var w1 := ManageIn(w, s);
    ManageFrame(w, s);
    ManageKeepsLocks(w, s);
    assert LocksApart(w1) by {
      forall p, q | p in w1.holds && q in w1.holds && p != q ensures Held(w1, p) !! Held(w1, q) {
        assert Held(w1, p) <= Held(w, p) && Held(w1, q) <= Held(w, q);
        assert p in w.holds && q in w.holds ==> Held(w, p) !! Held(w, q);
      }
    }
    forall key | key in w1.ledger.tables.custody ensures MayHold(w1.identity.committed, key.0) {
      assert HasRow(w.ledger.tables, key.0);
      ManageKeepsHolder(w, s, key.0);
    }
    forall t | t in w1.ledger.live ensures MoverOk(w1, t) {
      ManageKeepsMover(w, s, t);
    }
    forall t | t in w1.identity.live ensures OfficerOk(w1, t) {
      ManageKeepsOfficer(w, s, t);
    }
  }

  lemma ManageKeepsMover(w: World, s: I.Step, t: Id)
    requires I.Inv(w.identity) && Links(w) && t in w.ledger.live
    ensures MoverOk(ManageIn(w, s), t)
  {
    var w1, tx := ManageIn(w, s), w.ledger.live[t];
    ManageFrame(w, s);
    ManageKeepsLocks(w, s);
    assert MoverOk(w, t);
    if tx.phase.Lined? {
      forall key | key in tx.phase.writes.custody && tx.phase.writes.custody[key] != 0
        ensures MayHold(w1.identity.committed, key.0)
      {
        ManageKeepsHolder(w, s, key.0);
      }
    }
  }

  lemma LockKeeps(w: World, p: Party, user: Id)
    requires Links(w)
    ensures Links(LockIn(w, p, user))
  {
    var w1 := LockIn(w, p, user);
    if w1 != w {
      assert forall q :: q != p ==> Held(w1, q) == Held(w, q);
      assert Held(w1, p) == Held(w, p) + {user};
      forall t | t in w1.ledger.live ensures MoverOk(w1, t) {
        assert MoverOk(w, t);
      }
      forall t | t in w1.identity.live ensures OfficerOk(w1, t) {
        assert OfficerOk(w, t);
      }
    }
  }

  lemma ValidateKeeps(w: World, t: Id, user: Id)
    requires Links(w)
    ensures Links(ValidateIn(w, t, user))
  {
    var w1 := ValidateIn(w, t, user);
    assert forall p :: Held(w1, p) == Held(w, p) || Held(w1, p) == {};
    assert forall p :: p != Officer(t) ==> Held(w1, p) == Held(w, p);
    forall u | u in w1.ledger.live ensures MoverOk(w1, u) {
      assert MoverOk(w, u);
    }
    forall u | u in w1.identity.live ensures OfficerOk(w1, u) {
      assert OfficerOk(w, u);
    }
  }

  lemma MoveInv(w: World, s: L.Step)
    requires L.Inv(w.ledger)
    ensures L.Inv(MoveIn(w, s).ledger)
  {
    MoveIssues(w, s);
    if MoveIn(w, s).ledger != w.ledger {
      L.StepKeeps(w.ledger, Issued(w, s));
    }
  }

  lemma ManageInv(w: World, s: I.Step)
    requires I.Inv(w.identity)
    ensures I.Inv(ManageIn(w, s).identity)
  {
    I.StepKeeps(w.identity, s);
  }

  lemma ValidateInv(w: World, t: Id, user: Id)
    requires I.Inv(w.identity)
    ensures I.Inv(ValidateIn(w, t, user).identity) && ValidateIn(w, t, user).ledger == w.ledger
  {
    I.StepKeeps(w.identity, I.Abort(t));
  }

  lemma StepKeeps(w: World, s: Step)
    requires Inv(w)
    ensures Inv(Exec(w, s))
  {
    match s
    case Move(move) =>
      MoveKeeps(w, move);
      MoveInv(w, move);
      assert MoveIn(w, move).identity == w.identity;
    case Manage(manage) =>
      ManageKeeps(w, manage);
      ManageInv(w, manage);
      assert ManageIn(w, manage).ledger == w.ledger;
    case LockHolder(p, user) => LockKeeps(w, p, user);
    case Validate(t, user) =>
      ValidateKeeps(w, t, user);
      ValidateInv(w, t, user);
  }

  lemma StartOk()
    ensures Inv(Run([]))
  {
    L.RunKeeps([]);
    I.Serializable([], 0);
  }

  lemma {:induction false} RunKeeps(steps: seq<Step>)
    ensures Inv(Run(steps))
  {
    if |steps| == 0 {
      StartOk();
    } else {
      RunKeeps(steps[..|steps| - 1]);
      StepKeeps(Run(steps[..|steps| - 1]), steps[|steps| - 1]);
    }
  }

  /** In every interleaving of movement statements, identity transactions, lock waits, failed triggers and aborts:
      whoever has a committed custody row is APPROVED and ENGINEER or SENIOR_ENGINEER, the tables are the sums of
      the journal, and the registry is in order. */
  lemma {:induction false} HoldersEligibleInterleaved(steps: seq<Step>)
    ensures var w := Run(steps);
            && (forall key :: key in w.ledger.tables.custody ==>
                  && key.0 in w.identity.committed.users && w.identity.committed.users[key.0].access == Approved
                  && (w.identity.committed.users[key.0].role == Engineer || w.identity.committed.users[key.0].role == SeniorEngineer))
            && Agree(w.ledger.journal, w.ledger.tables)
            && Identity.RegistryOk(w.identity.committed)
  {
    RunKeeps(steps);
    Identity.RunsKeep(Run(steps).identity.commits, 0);
    assert forall key :: key in Run(steps).ledger.tables.custody ==> MayHold(Run(steps).identity.committed, key.0);
  }
}
