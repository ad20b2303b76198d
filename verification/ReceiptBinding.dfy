/** Binding a movement as a procurement receipt against adjusting it: both triggers take the advisory
    lock of the movement (namespace 61502). */
module ReceiptBinding {
  import opened Journal
  import opened LockProtocol

  /** The columns of procurement_requests the binding trigger compares. */
  datatype Request = Request(completed: bool, finalMovement: Option<Id>, completedAt: Option<int>)

  /** The columns of movements the triggers look at. */
  datatype Row = Row(id: Id, kind: MovementType, original: Option<Id>)

  datatype Books = Books(requests: map<Id, Request>, movements: set<Row>)

  datatype Write =
    | InsertMovement(row: Row)
    | WriteRequest(id: Id, prior: Option<Request>, next: Request) // INSERT when prior is None, else UPDATE

  datatype Lock = ReceiptLock(movement: Id) | RequestRow(id: Id) | MovementRow(id: Id)

  function Apply(s: Books, w: Write): Books {
    match w
    case InsertMovement(row) => s.(movements := s.movements + {row})
    case WriteRequest(id, _, next) => s.(requests := s.requests[id := next])
  }

  predicate Adjusts(row: Row) {
    (row.kind.Correction? || row.kind.Reversal?) && row.original.Some?
  }

  predicate Binds(prior: Option<Request>, next: Request) {
    next.finalMovement.Some? && (prior.None? || prior.value.finalMovement != next.finalMovement)
  }

  function Locks(w: Write): set<Lock> {
    match w
    case InsertMovement(row) =>
      {MovementRow(row.id)} + if Adjusts(row) then {ReceiptLock(row.original.value)} else {}
    case WriteRequest(id, prior, next) =>
      {RequestRow(id)} + if Binds(prior, next) then {ReceiptLock(next.finalMovement.value)} else {}
  }

  predicate Adjusted(s: Books, movement: Id) {
    exists row :: row in s.movements && Adjusts(row) && row.original == Some(movement)
  }

  predicate Bound(s: Books, movement: Id) {
    exists id :: id in s.requests && s.requests[id].finalMovement == Some(movement)
  }

  /** ck_procurement_requests_completion_state */
  predicate CompletionState(r: Request) {
    if r.completed then r.finalMovement.Some? && r.completedAt.Some? else r.finalMovement.None? && r.completedAt.None?
  }

  predicate Fits(s: Books, w: Write) {
    w.WriteRequest? ==> if w.prior.None? then w.id !in s.requests else w.id in s.requests && s.requests[w.id] == w.prior.value
  }

  /** protect_procurement_receipt_movement and protect_procurement_final_movement_binding */
  predicate Check(s: Books, w: Write) {
    match w
    case InsertMovement(row) => Adjusts(row) ==> !Bound(s, row.original.value)
    case WriteRequest(id, prior, next) =>
      && Fits(s, w)
      && CompletionState(next)
      && (prior.Some? && prior.value.completed ==> next == prior.value)
      && (Binds(prior, next) ==> !Adjusted(s, next.finalMovement.value))
  }

  predicate Good(s: Books) {
    forall id :: id in s.requests ==>
      CompletionState(s.requests[id])
      && (s.requests[id].finalMovement.Some? ==> !Adjusted(s, s.requests[id].finalMovement.value))
  }

  /** A completed request keeps its status, movement and completion time. */
  predicate Keeps(s: Books, s': Books) {
    forall id :: id in s.requests && s.requests[id].completed ==> id in s'.requests && s'.requests[id] == s.requests[id]
  }

  function Rules(): Protocol<Books, Write, Lock> {
    Protocol(Apply, Locks, Check, Fits, w => {}, (s, w) => true, Good, Keeps)
  }

  lemma CheckStays(s: Books, w: Write, w2: Write)
    requires Locks(w) !! Locks(w2) && Fits(s, w2) && Check(s, w)
    ensures Check(Apply(s, w2), w)
  {
    var s' := Apply(s, w2);
    match w
    case InsertMovement(row) =>
      if Adjusts(row) {
        assert ReceiptLock(row.original.value) in Locks(w);
        assert forall id :: id in s.requests ==> s.requests[id].finalMovement != row.original;
      }
    case WriteRequest(id, prior, next) =>
      if Binds(prior, next) {
        assert ReceiptLock(next.finalMovement.value) in Locks(w);
        assert forall row :: row in s.movements && Adjusts(row) ==> row.original != next.finalMovement;
        assert w2.InsertMovement? && Adjusts(w2.row) ==> ReceiptLock(w2.row.original.value) in Locks(w2);
      }
  }

  lemma StepIsSound(s: Books, w: Write)
    requires Good(s) && Check(s, w)
    ensures Good(Apply(s, w)) && Keeps(s, Apply(s, w))
  {
    var s' := Apply(s, w);
    forall id | id in s'.requests && s'.requests[id].finalMovement.Some?
      ensures !Adjusted(s', s'.requests[id].finalMovement.value)
    {
      var m := s'.requests[id].finalMovement.value;
      assert w.InsertMovement? ==> Bound(s, m);
      assert !Adjusted(s, m);
    }
  }

  lemma {:induction false} RulesProtect()
    ensures Protects(Rules())
  {
    var p := Rules();
    forall s, w1, w2 | p.locks(w1) !! AllLocks(p, w2)
      ensures p.apply(p.apply(s, w2), w1) == p.apply(p.apply(s, w1), w2)
    {
      if w1.WriteRequest? && w2.WriteRequest? {
        assert RequestRow(w1.id) in p.locks(w1) && RequestRow(w2.id) in p.locks(w2);
        assert s.requests[w2.id := w2.next][w1.id := w1.next] == s.requests[w1.id := w1.next][w2.id := w2.next];
      }
    }
    forall s, w, w2 | p.locks(w) !! AllLocks(p, w2) && p.fits(s, w2) && p.check(s, w)
      ensures p.check(p.apply(s, w2), w)
    {
      CheckStays(s, w, w2);
    }
    forall s, w, w2 | p.locks(w) !! p.locks(w2) && p.fits(s, w) ensures p.fits(p.apply(s, w2), w) {
      if w.WriteRequest? && w2.WriteRequest? {
        assert RequestRow(w.id) in p.locks(w) && RequestRow(w2.id) in p.locks(w2);
      }
    }
    forall s, w | p.good(s) && p.check(s, w) ensures p.good(p.apply(s, w)) && p.keeps(s, p.apply(s, w)) {
      StepIsSound(s, w);
    }
    forall s, writes | p.good(s) && Checked(p, s, writes)
      ensures p.good(ApplyAll(p, s, writes)) && p.keeps(s, ApplyAll(p, s, writes))
    {
      SoundByStep(p, s, writes);
    }
  }

  const EMPTY := Books(map[], {})

  /** Whichever transaction takes the shared lock first, no committed state holds a request bound to a movement together
      with a CORRECTION or REVERSAL of that movement, and a completed binding never changes. */
  lemma {:induction false} ReceiptsStayUnadjusted(steps: seq<Step<Write, Lock>>, n: nat, request: Id, movement: Id, row: Row)
    requires n <= |steps|
    ensures var s := Run(Rules(), EMPTY, steps).committed;
            !(&& request in s.requests && s.requests[request].finalMovement == Some(movement)
              && row in s.movements && (row.kind == Correction || row.kind == Reversal) && row.original == Some(movement))
    ensures var early, late := Run(Rules(), EMPTY, steps[..n]).committed, Run(Rules(), EMPTY, steps).committed;
            request in early.requests && early.requests[request].completed ==>
              request in late.requests && late.requests[request] == early.requests[request]
  {
    RulesProtect();
    Interleavings(Rules(), EMPTY, steps, n);
    assert row.kind == Correction || row.kind == Reversal ==> row.original == Some(movement) ==> Adjusts(row);
  }

  // ----- What the triggers let through -----

  /** A movement is refused exactly if it is a CORRECTION or REVERSAL of a bound receipt. */
  lemma MovementAcceptedIff(s: Books, row: Row)
    ensures Check(s, InsertMovement(row)) <==>
              (row.kind == Correction || row.kind == Reversal) && row.original.Some? ==>
                forall id :: id in s.requests ==> s.requests[id].finalMovement != row.original
  {
  }

  /** A request row is accepted exactly if it is computed from the current row, complete with its receipt or without
      one, keeps a completed binding, and does not newly bind an adjusted movement. */
  lemma RequestAcceptedIff(s: Books, id: Id, prior: Option<Request>, next: Request)
    ensures Check(s, WriteRequest(id, prior, next)) <==>
              && (if prior.None? then id !in s.requests else id in s.requests && s.requests[id] == prior.value)
              && next.completed == next.finalMovement.Some? == next.completedAt.Some?
              && (prior.Some? && prior.value.completed ==> next == prior.value)
              && (next.finalMovement.Some? && (prior.None? || prior.value.finalMovement != next.finalMovement) ==>
                    forall row :: row in s.movements && (row.kind == Correction || row.kind == Reversal) ==>
                      row.original != next.finalMovement)
  {
    assert Check(s, WriteRequest(id, prior, next)) ==> CompletionState(next);
  }

  /** From every reachable world, whatever the triggers let through can be committed, and its row is then there. */
  lemma AcceptedRowCommits(before: seq<Step<Write, Lock>>, t: int, w: Write) returns (steps: seq<Step<Write, Lock>>)
    requires t !in Run(Rules(), EMPTY, before).live && Free(Run(Rules(), EMPTY, before), AllLocks(Rules(), w))
    requires Check(Run(Rules(), EMPTY, before).committed, w)
    ensures var s, s' := Run(Rules(), EMPTY, before).committed, Run(Rules(), EMPTY, before + steps).committed;
            match w
            case InsertMovement(row) => s' == s.(movements := s.movements + {row})
            case WriteRequest(id, _, next) => s' == s.(requests := s.requests[id := next])
  {
    steps := CommitsAlone(Rules(), Run(Rules(), EMPTY, before), t, w);
    ContinuesRun(Rules(), EMPTY, before, steps);
  }
}
