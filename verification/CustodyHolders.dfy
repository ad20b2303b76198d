/** Custody rows against changes of role or access: the custody row trigger checks at once, the user
    trigger at commit, both under the advisory lock of the user (namespace 61504). */
module CustodyHolders {
  import opened Journal
  import opened LockProtocol
  import opened Policy

  /** rows: (user, item) of user_item_custody_balances. */
  datatype Books = Books(users: map<Id, Standing>, rows: set<(Id, Id)>)

  datatype Write =
    | PutRow(user: Id, item: Id)        // INSERT or UPDATE of a custody row
    | DeleteRow(user: Id, item: Id)
    | InsertUser(id: Id, next: Standing)
    | UpdateUser(id: Id, prior: Standing, next: Standing)

  datatype Lock = Holder(user: Id) | UserRow(id: Id) | CustodyRow(user: Id, item: Id)

  function Apply(s: Books, w: Write): Books {
    match w
    case PutRow(u, i) => s.(rows := s.rows + {(u, i)})
    case DeleteRow(u, i) => s.(rows := s.rows - {(u, i)})
    case InsertUser(id, next) => s.(users := s.users[id := next])
    case UpdateUser(id, _, next) => s.(users := s.users[id := next])
  }

  function Locks(w: Write): set<Lock> {
    match w
    case PutRow(u, i) => {Holder(u), CustodyRow(u, i)}
    case DeleteRow(u, i) => {CustodyRow(u, i)}
    case InsertUser(id, _) => {UserRow(id)}
    case UpdateUser(id, _, _) => {UserRow(id)}
  }

  function LateLocks(w: Write): set<Lock> {
    if w.UpdateUser? && w.prior != w.next then {Holder(w.id)} else {}
  }

  predicate Fits(s: Books, w: Write) {
    match w
    case InsertUser(id, _) => id !in s.users
    case UpdateUser(id, prior, _) => id in s.users && s.users[id] == prior
    case _ => true
  }

  /** enforce_custody_holder_eligibility */
  predicate Check(s: Books, w: Write) {
    Fits(s, w) && (w.PutRow? ==> w.user in s.users && Eligible(s.users[w.user]))
  }

  predicate Holds(s: Books, user: Id) {
    exists r :: r in s.rows && r.0 == user
  }

  /** enforce_user_custody_eligibility */
  predicate LateCheck(s: Books, w: Write) {
    w.UpdateUser? && w.prior != w.next && !Eligible(w.next) ==> !Holds(s, w.id)
  }

  predicate Good(s: Books) {
    forall r :: r in s.rows ==> r.0 in s.users && Eligible(s.users[r.0])
  }

  function Rules(): Protocol<Books, Write, Lock> {
    Protocol(Apply, Locks, Check, Fits, LateLocks, LateCheck, Good, (s, s') => true)
  }

  lemma CheckStays(s: Books, w: Write, w2: Write)
    requires Locks(w) !! Locks(w2) + LateLocks(w2) && Fits(s, w2) && Check(s, w)
    ensures Check(Apply(s, w2), w)
  {
    match w
    case PutRow(u, _) => assert Holder(u) in Locks(w);
    case InsertUser(id, _) => assert UserRow(id) in Locks(w);
    case UpdateUser(id, _, _) => assert UserRow(id) in Locks(w);
    case _ =>
  }

  lemma LateStays(s: Books, w: Write, w2: Write)
    requires Locks(w) + LateLocks(w) !! Locks(w2) + LateLocks(w2) && LateCheck(s, w)
    ensures LateCheck(Apply(s, w2), w)
  {
    if w.UpdateUser? && w.prior != w.next && !Eligible(w.next) {
      assert Holder(w.id) in LateLocks(w);
      assert forall r :: r in s.rows ==> r.0 != w.id;
    }
  }

  lemma FitsStays(s: Books, w: Write, w2: Write)
    requires Locks(w) !! Locks(w2) && Fits(s, w)
    ensures Fits(Apply(s, w2), w)
  {
    if w.InsertUser? || w.UpdateUser? {
      assert UserRow(w.id) in Locks(w);
    }
  }

  lemma WritesCommute(s: Books, w1: Write, w2: Write)
    requires Locks(w1) !! Locks(w2)
    ensures Apply(Apply(s, w2), w1) == Apply(Apply(s, w1), w2)
  {
    if w1.PutRow? || w1.DeleteRow? {
      assert CustodyRow(w1.user, w1.item) in Locks(w1);
      if w2.PutRow? || w2.DeleteRow? {
        assert (w1.user, w1.item) != (w2.user, w2.item);
      }
    } else if w2.InsertUser? || w2.UpdateUser? {
      assert UserRow(w1.id) in Locks(w1) && UserRow(w2.id) in Locks(w2);
      assert s.users[w2.id := w2.next][w1.id := w1.next] == s.users[w1.id := w1.next][w2.id := w2.next];
    }
  }

  /** The user's standing comes from a changing update among the first n writes. */
  predicate Updated(writes: seq<Write>, n: nat, user: Id, standing: Standing)
    requires n <= |writes|
  {
    exists k :: 0 <= k < n && writes[k].UpdateUser? && writes[k].id == user && writes[k].prior != writes[k].next
                && writes[k].next == standing
  }

  /** Half way through a transaction, a holder is eligible or its standing is still to be validated. */
  lemma {:induction false} HalfWay(s: Books, writes: seq<Write>, n: nat, r: (Id, Id))
    requires Good(s) && Checked(Rules(), s, writes) && n <= |writes|
    requires r in ApplyAll(Rules(), s, writes[..n]).rows
    ensures var v := ApplyAll(Rules(), s, writes[..n]);
            r.0 in v.users && (Eligible(v.users[r.0]) || Updated(writes, n, r.0, v.users[r.0]))
  {
    if n == 0 {
      assert writes[..0] == [];
    } else {
      var w := writes[n - 1];
      assert writes[..n][..n - 1] == writes[..n - 1];
      var before := ApplyAll(Rules(), s, writes[..n - 1]);
      assert Check(before, w);
      if r in before.rows {
        HalfWay(s, writes, n - 1, r);
      }
    }
  }

  lemma {:induction false} AloneIsSound(s: Books, writes: seq<Write>)
    requires Good(s) && Checked(Rules(), s, writes) && LateChecked(Rules(), s, writes, |writes|)
    ensures Good(ApplyAll(Rules(), s, writes))
  {
    var v := ApplyAll(Rules(), s, writes);
    assert writes[..|writes|] == writes;
    forall r | r in v.rows ensures r.0 in v.users && Eligible(v.users[r.0]) {
      HalfWay(s, writes, |writes|, r);
      assert Holds(v, r.0);
      assert forall k :: 0 <= k < |writes| ==> LateCheck(v, writes[k]);
    }
  }

  lemma {:induction false} RulesProtect()
    ensures Protects(Rules())
  {
    var p := Rules();
    forall s, w1, w2 | p.locks(w1) !! AllLocks(p, w2)
      ensures p.apply(p.apply(s, w2), w1) == p.apply(p.apply(s, w1), w2)
    {
      WritesCommute(s, w1, w2);
    }
    forall s, w, w2 | p.locks(w) !! AllLocks(p, w2) && p.fits(s, w2) && p.check(s, w)
      ensures p.check(p.apply(s, w2), w)
    {
      CheckStays(s, w, w2);
    }
    forall s, w, w2 | AllLocks(p, w) !! AllLocks(p, w2) && p.fits(s, w2) && p.lateCheck(s, w)
      ensures p.lateCheck(p.apply(s, w2), w)
    {
      LateStays(s, w, w2);
    }
    forall s, w, w2 | p.locks(w) !! p.locks(w2) && p.fits(s, w) ensures p.fits(p.apply(s, w2), w) {
      FitsStays(s, w, w2);
    }
    forall s, writes | p.good(s) && Checked(p, s, writes) && LateChecked(p, s, writes, |writes|)
      ensures p.good(ApplyAll(p, s, writes))
    {
      AloneIsSound(s, writes);
    }
  }

  const EMPTY := Books(map[], {})

  /** In every interleaving of custody writes with inserts and updates of users, whoever has a committed
      custody row is APPROVED and ENGINEER or SENIOR_ENGINEER. */
  lemma {:induction false} HoldersStayEligible(steps: seq<Step<Write, Lock>>, row: (Id, Id))
    requires row in Run(Rules(), EMPTY, steps).committed.rows
    ensures row.0 in Run(Rules(), EMPTY, steps).committed.users
    ensures var u := Run(Rules(), EMPTY, steps).committed.users[row.0];
            u.access == Approved && (u.role == Engineer || u.role == SeniorEngineer)
  {
    RulesProtect();
    Interleavings(Rules(), EMPTY, steps, 0);
  }

  // ----- What the triggers let through -----

  /** A custody row is accepted exactly for an APPROVED ENGINEER or SENIOR_ENGINEER. */
  lemma RowAcceptedIff(s: Books, user: Id, item: Id)
    ensures Check(s, PutRow(user, item)) <==>
              && user in s.users && s.users[user].access == Approved
              && (s.users[user].role == Engineer || s.users[user].role == SeniorEngineer)
    ensures Check(s, DeleteRow(user, item))
  {
  }

  /** A change of a user is refused at commit exactly if it changes the standing to one that may not hold equipment
      while the user has a custody row. */
  lemma UserAcceptedIff(s: Books, id: Id, prior: Standing, next: Standing)
    ensures LateCheck(s, UpdateUser(id, prior, next)) <==>
              || prior == next
              || (next.access == Approved && (next.role == Engineer || next.role == SeniorEngineer))
              || forall row :: row in s.rows ==> row.0 != id
  {
  }

  /** From every reachable world, whatever the triggers let through can be committed, and its row is then there. */
  lemma AcceptedRowCommits(before: seq<Step<Write, Lock>>, t: int, w: Write) returns (steps: seq<Step<Write, Lock>>)
    requires t !in Run(Rules(), EMPTY, before).live && Free(Run(Rules(), EMPTY, before), AllLocks(Rules(), w))
    requires Check(Run(Rules(), EMPTY, before).committed, w) && LateCheck(Apply(Run(Rules(), EMPTY, before).committed, w), w)
    ensures var s, s' := Run(Rules(), EMPTY, before).committed, Run(Rules(), EMPTY, before + steps).committed;
            match w
            case PutRow(u, i) => s' == s.(rows := s.rows + {(u, i)})
            case DeleteRow(u, i) => s' == s.(rows := s.rows - {(u, i)})
            case InsertUser(id, next) => s' == s.(users := s.users[id := next])
            case UpdateUser(id, _, next) => s' == s.(users := s.users[id := next])
  {
    steps := CommitsAlone(Rules(), Run(Rules(), EMPTY, before), t, w);
    ContinuesRun(Rules(), EMPTY, before, steps);
  }
}
