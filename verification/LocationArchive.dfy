/** Archiving a location against moving stock through it: both lock the location row first, then the
    archive checks for stock rows and the movement checks that the location is active. */
module LocationArchive {
  import opened Journal
  import opened LockProtocol

  /** stock: (item, location) rows of stock_balances. */
  datatype Books = Books(archived: set<Id>, stock: set<(Id, Id)>)

  datatype Write =
    | PutStock(item: Id, location: Id)
    | DropStock(item: Id, location: Id)
    | SetArchived(location: Id, archived: bool)

  datatype Lock = Location(id: Id)

  function Apply(s: Books, w: Write): Books {
    match w
    case PutStock(i, l) => s.(stock := s.stock + {(i, l)})
    case DropStock(i, l) => s.(stock := s.stock - {(i, l)})
    case SetArchived(l, archived) => s.(archived := if archived then s.archived + {l} else s.archived - {l})
  }

  function Locks(w: Write): set<Lock> {
    {Location(w.location)}
  }

  predicate HasStock(s: Books, location: Id) {
    exists row :: row in s.stock && row.1 == location
  }

  predicate Check(s: Books, w: Write) {
    match w
    case PutStock(_, l) => l !in s.archived
    case DropStock(_, l) => l !in s.archived
    case SetArchived(l, archived) => archived ==> !HasStock(s, l)
  }

  predicate Good(s: Books) {
    forall row :: row in s.stock ==> row.1 !in s.archived
  }

  function Rules(): Protocol<Books, Write, Lock> {
    Protocol(Apply, Locks, Check, (s, w) => true, w => {}, (s, w) => true, Good, (s, s') => true)
  }

  lemma {:induction false} RulesProtect()
    ensures Protects(Rules())
  {
    var p := Rules();
    forall s, w1, w2 | p.locks(w1) !! AllLocks(p, w2)
      ensures p.apply(p.apply(s, w2), w1) == p.apply(p.apply(s, w1), w2)
    {
      assert Location(w1.location) in p.locks(w1) && Location(w2.location) in p.locks(w2);
    }
    forall s, w, w2 | p.locks(w) !! AllLocks(p, w2) && p.fits(s, w2) && p.check(s, w)
      ensures p.check(p.apply(s, w2), w)
    {
      assert Location(w.location) in p.locks(w) && Location(w2.location) in p.locks(w2);
    }
    forall s, w | p.good(s) && p.check(s, w) ensures p.good(p.apply(s, w)) {
      assert w.SetArchived? && w.archived ==> forall row :: row in s.stock ==> row.1 != w.location;
    }
    forall s, writes | p.good(s) && Checked(p, s, writes) ensures p.good(ApplyAll(p, s, writes)) {
      SoundByStep(p, s, writes);
    }
  }

  /** No interleaving commits a state in which an archived location holds stock. */
  lemma {:induction false} ArchivedStaysEmpty(steps: seq<Step<Write, Lock>>, location: Id)
    ensures var s := Run(Rules(), Books({}, {}), steps).committed; !(location in s.archived && HasStock(s, location))
  {
    RulesProtect();
    Interleavings(Rules(), Books({}, {}), steps, 0);
  }

  /** Stock moves exactly through active locations; a location is archived exactly if no stock row lies there, and
      reopened always. */
  lemma AcceptedIff(s: Books, item: Id, location: Id)
    ensures Check(s, PutStock(item, location)) <==> location !in s.archived
    ensures Check(s, DropStock(item, location)) <==> location !in s.archived
    ensures Check(s, SetArchived(location, true)) <==> forall row :: row in s.stock ==> row.1 != location
    ensures Check(s, SetArchived(location, false))
  {
  }

  /** From every reachable world, whatever the checks let through can be committed, and takes effect. */
  lemma AcceptedRowCommits(before: seq<Step<Write, Lock>>, t: int, w: Write) returns (steps: seq<Step<Write, Lock>>)
    requires t !in Run(Rules(), Books({}, {}), before).live && Free(Run(Rules(), Books({}, {}), before), AllLocks(Rules(), w))
    requires Check(Run(Rules(), Books({}, {}), before).committed, w)
    ensures var s, s' := Run(Rules(), Books({}, {}), before).committed, Run(Rules(), Books({}, {}), before + steps).committed;
            match w
            case PutStock(i, l) => s' == s.(stock := s.stock + {(i, l)})
            case DropStock(i, l) => s' == s.(stock := s.stock - {(i, l)})
            case SetArchived(l, archived) => s' == s.(archived := if archived then s.archived + {l} else s.archived - {l})
  {
    steps := CommitsAlone(Rules(), Run(Rules(), Books({}, {}), before), t, w);
    ContinuesRun(Rules(), Books({}, {}), before, steps);
  }
}
