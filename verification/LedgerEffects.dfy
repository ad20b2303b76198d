/** What movement transactions achieve: a commit books exactly its movement, and a movement that fits can be booked
    from every reachable world. */
module LedgerEffects {
  import opened Journal
  import opened Reversals
  import opened Projections
  import opened Booking
  import opened LedgerRuns
  import LockProtocol

  /** In every reachable world the commit of a refreshed transaction appends its movement and books it, line by
      line, on the rows then committed. */
  lemma {:induction false} CommitBooks(steps: seq<Step>, t: Id)
    requires t in Run(steps).live && Run(steps).live[t].phase.Lined?
    requires Run(steps).live[t].phase.refreshed == |Run(steps).live[t].draft.lines|
    ensures var w, w1 := Run(steps), Run(steps + [Commit(t)]);
            && w1.journal == w.journal + [w.live[t].draft] && w1.live == w.live - {t} && w1.nextSeq == w.nextSeq
            && Booked(w.journal, w.live[t].draft, w.tables, w1.tables)
  {
    RunKeeps(steps);
    assert (steps + [Commit(t)])[..|steps|] == steps;
    CommitEffect(Run(steps), t);
  }

  lemma CommitEffect(w: World, t: Id)
    requires Inv(w) && t in w.live && w.live[t].phase.Lined? && w.live[t].phase.refreshed == |w.live[t].draft.lines|
    ensures var w1 := Exec(w, Commit(t));
            && w1.journal == w.journal + [w.live[t].draft] && w1.live == w.live - {t} && w1.nextSeq == w.nextSeq
            && Booked(w.journal, w.live[t].draft, w.tables, w1.tables)
  {
    var m := w.live[t].draft;
    CommittedGrows(w, w.live[t]);
    AgreeMeansBooked(w.journal, m, w.tables, Exec(w, Commit(t)).tables);
  }

  // ----- A transaction on its own -----

  function ExecAll(w: World, steps: seq<Step>): World {
    if |steps| == 0 then w else Exec(ExecAll(w, steps[..|steps| - 1]), steps[|steps| - 1])
  }

  lemma Then(w: World, a: seq<Step>, s: Step)
    ensures ExecAll(w, a + [s]) == Exec(ExecAll(w, a), s)
  {
    assert (a + [s])[..|a|] == a;
  }

  lemma {:induction false} Chained(w: World, a: seq<Step>, b: seq<Step>)
    ensures ExecAll(w, a + b) == ExecAll(ExecAll(w, a), b)
  {
    if |b| == 0 {
      assert a + b == a;
    } else {
      Chained(w, a, b[..|b| - 1]);
      assert (a + b)[..|a + b| - 1] == a + b[..|b| - 1];
    }
  }

  lemma {:induction false} ContinuesRun(steps: seq<Step>, more: seq<Step>)
    ensures Run(steps + more) == ExecAll(Run(steps), more)
  {
    if |more| == 0 {
      assert steps + more == steps;
    } else {
      ContinuesRun(steps, more[..|more| - 1]);
      assert (steps + more)[..|steps + more| - 1] == steps + more[..|more| - 1];
    }
  }

  predicate Own(steps: seq<Step>, t: Id) {
    forall k :: 0 <= k < |steps| ==> steps[k].tx == t
  }

  predicate NoRefresh(steps: seq<Step>) {
    forall k :: 0 <= k < |steps| ==> !steps[k].RefreshNext?
  }

  /** Refreshes that passed the holder check, and the commit. */
  predicate Closing(steps: seq<Step>, t: Id) {
    forall k :: 0 <= k < |steps| ==> steps[k] == RefreshNext(t, true) || steps[k] == Commit(t)
  }

  /** The locks a movement takes. */
  function Needed(m: Movement): set<Lock> {
    {RequestLock(m.actor, m.requestId)} + (set item | item in Items(m.lines) :: ItemLock(item))
    + (if m.original.Some? then {OriginalLock(m.original.value)} else {})
  }

  predicate FreeFor(w: World, t: Id, locks: set<Lock>) {
    forall u :: u in w.live && u != t ==> w.live[u].held !! locks
  }

  lemma AcquireOne(w: World, t: Id, lock: Lock, locks: set<Lock>)
    requires t in w.live && FreeFor(w, t, locks) && lock in locks
    ensures var w1 := Update(w, t, w.live[t].(held := w.live[t].held + {lock}));
            ExecAll(w, [] + [Acquire(t, lock)]) == w1 && FreeFor(w1, t, locks - {lock})
  {
    Then(w, [], Acquire(t, lock));
  }

  lemma {:induction false} AcquireAll(w: World, t: Id, locks: set<Lock>) returns (steps: seq<Step>)
    requires t in w.live && FreeFor(w, t, locks)
    ensures Own(steps, t) && NoRefresh(steps) && ExecAll(w, steps) == Update(w, t, w.live[t].(held := w.live[t].held + locks))
    decreases |locks|
  {
    if locks == {} {
      steps := [];
      assert w.live[t].held + locks == w.live[t].held;
      assert Update(w, t, w.live[t]) == w;
    } else {
      var lock :| lock in locks;
      AcquireOne(w, t, lock, locks);
      var tx := w.live[t].(held := w.live[t].held + {lock});
      var rest := AcquireAll(Update(w, t, tx), t, locks - {lock});
      Chained(w, [] + [Acquire(t, lock)], rest);
      steps := [] + [Acquire(t, lock)] + rest;
      assert tx.held + (locks - {lock}) == w.live[t].held + locks;
      TwoUpdates(w, t, tx, tx.(held := tx.held + (locks - {lock})));
    }
  }

  // Single statements of a transaction that has come so far.

  lemma BeginStep(w: World, t: Id, m: Movement)
    requires t !in w.live && Valid(m) && FreshId(w, m.id)
    ensures Exec(w, Begin(t, m)) == Update(w, t, Tx(m, {}, Starting))
  {
  }

  lemma ReplayStep(w: World, t: Id, m: Movement, held: set<Lock>)
    requires !Taken(w.journal, m) && RequestLock(m.actor, m.requestId) in held
    ensures Exec(Update(w, t, Tx(m, held, Starting)), CheckReplay(t)) == Update(w, t, Tx(m, held, Fresh))
  {
  }

  lemma StockStep(w: World, t: Id, m: Movement, held: set<Lock>)
    requires HoldsAll(Tx(m, held, Fresh))
    ensures Exec(Update(w, t, Tx(m, held, Fresh)), ReadStock(t))
         == Update(w, t, Tx(m, held, StockRead(SelectStock(w.tables.stock, m))))
  {
  }

  lemma CustodyStep(w: World, t: Id, m: Movement, held: set<Lock>, stock: map<(Id, Id), int>)
    ensures Exec(Update(w, t, Tx(m, held, StockRead(stock))), ReadCustody(t))
         == Update(w, t, Tx(m, held, BalancesRead(Tables(stock, SelectCustody(w.tables.custody, m)))))
  {
  }

  lemma HeaderStep(w: World, t: Id, m: Movement, held: set<Lock>, seen: Tables)
    requires HeaderTriggers(w.journal, m)
    ensures Exec(Update(w, t, Tx(m, held, BalancesRead(seen))), InsertHeader(t))
         == Update(w, t, Tx(m.(seqNo := w.nextSeq), held, Headed(seen))).(nextSeq := w.nextSeq + 1)
  {
  }

  lemma LinesStep(w: World, t: Id, m: Movement, held: set<Lock>, seen: Tables)
    requires CheckLines(seen, m, Sign(w.journal, m), m.lines).None? && LineTriggers(w.journal, m)
    ensures Exec(Update(w, t, Tx(m, held, Headed(seen))), InsertLines(t))
         == Update(w, t, Tx(m, held, Lined(seen, 0, Tables(map[], map[]))))
  {
  }

  /** Begin and take the locks. */
  lemma Locking(w: World, t: Id, m: Movement) returns (steps: seq<Step>)
    requires t !in w.live && Valid(m) && FreshId(w, m.id) && FreeFor(w, t, Needed(m))
    ensures Own(steps, t) && NoRefresh(steps) && ExecAll(w, steps) == Update(w, t, Tx(m, Needed(m), Starting))
  {
    BeginStep(w, t, m);
    var w1 := Update(w, t, Tx(m, {}, Starting));
    var locking := AcquireAll(w1, t, Needed(m));
    Then(w, [], Begin(t, m));
    Chained(w, [] + [Begin(t, m)], locking);
    assert {} + Needed(m) == Needed(m);
    steps := [] + [Begin(t, m)] + locking;
  }

  /** Find the request new and read the balances. */
  lemma Reading(w: World, t: Id, m: Movement) returns (steps: seq<Step>)
    requires t !in w.live && Valid(m) && FreshId(w, m.id) && !Taken(w.journal, m) && FreeFor(w, t, Needed(m))
    ensures Own(steps, t) && NoRefresh(steps)
    ensures ExecAll(w, steps) == Update(w, t, Tx(m, Needed(m), BalancesRead(
                                   Tables(SelectStock(w.tables.stock, m), SelectCustody(w.tables.custody, m)))))
  {
    var a := Locking(w, t, m);
    LocksSuffice(m);
    Then(w, a, CheckReplay(t));
    ReplayStep(w, t, m, Needed(m));
    Then(w, a + [CheckReplay(t)], ReadStock(t));
    StockStep(w, t, m, Needed(m));
    Then(w, a + [CheckReplay(t)] + [ReadStock(t)], ReadCustody(t));
    CustodyStep(w, t, m, Needed(m), SelectStock(w.tables.stock, m));
    steps := a + [CheckReplay(t)] + [ReadStock(t)] + [ReadCustody(t)];
  }

  lemma LocksSuffice(m: Movement)
    ensures RequestLock(m.actor, m.requestId) in Needed(m)
    ensures forall phase :: HoldsAll(Tx(m, Needed(m), phase))
  {
    forall k | 0 <= k < |m.lines| ensures ItemLock(m.lines[k].item) in Needed(m) {
      assert m.lines[k].item in Items(m.lines);
    }
  }

  lemma RefreshStep(w: World, t: Id)
    requires t in w.live && w.live[t].phase.Lined? && w.live[t].phase.refreshed < |w.live[t].draft.lines|
    requires RefreshIn(w, t, true).Ok?
    ensures Exec(w, RefreshNext(t, true)) == Update(w, t, Advanced(w.live[t], RefreshIn(w, t, true).tables))
  {
  }

  lemma RefreshOnce(w: World, t: Id)
    requires Ready(w, t) && w.live[t].phase.Lined? && w.live[t].phase.refreshed < |w.live[t].draft.lines|
    ensures RefreshIn(w, t, true).Ok?
    ensures Ready(Update(w, t, Advanced(w.live[t], RefreshIn(w, t, true).tables)), t)
  {
    RefreshSucceeds(w, t, true);
    RefreshedTxOk(w, t, true);
  }

  lemma OneMore(w: World, t: Id, tx: Tx, steps: seq<Step>) returns (tx1: Tx)
    requires Ready(Update(w, t, tx), t) && tx.phase.Lined? && tx.phase.refreshed < |tx.draft.lines|
    requires ExecAll(w, steps) == Update(w, t, tx)
    ensures tx1.phase.Lined? && tx1.phase.refreshed == tx.phase.refreshed + 1 && tx1.draft == tx.draft
    ensures Ready(Update(w, t, tx1), t) && ExecAll(w, steps + [RefreshNext(t, true)]) == Update(w, t, tx1)
  {
    var w1 := Update(w, t, tx);
    RefreshOnce(w1, t);
    RefreshStep(w1, t);
    Then(w, steps, RefreshNext(t, true));
    tx1 := Advanced(tx, RefreshIn(w1, t, true).tables);
    TwoUpdates(w, t, tx, tx1);
  }

  lemma TwoUpdates(w: World, t: Id, a: Tx, b: Tx)
    ensures Update(Update(w, t, a), t, b) == Update(w, t, b)
  {
  }

  /** Each refresh succeeds; after the last one the transaction can commit. */
  lemma {:induction false} RefreshAllLines(w: World, t: Id, tx: Tx, before: seq<Step>) returns (steps: seq<Step>, done: Tx)
    requires Ready(Update(w, t, tx), t) && tx.phase.Lined? && tx.phase.refreshed <= |tx.draft.lines|
    requires Closing(before, t) && ExecAll(w, before) == Update(w, t, tx)
    ensures Closing(steps, t) && ExecAll(w, steps) == Update(w, t, done)
    ensures done.phase.Lined? && done.phase.refreshed == |done.draft.lines| && done.draft == tx.draft
    decreases |tx.draft.lines| - tx.phase.refreshed
  {
    if tx.phase.refreshed == |tx.draft.lines| {
      steps, done := before, tx;
    } else {
      var tx1 := OneMore(w, t, tx, before);
      steps, done := RefreshAllLines(w, t, tx1, before + [RefreshNext(t, true)]);
    }
  }

  /** The database's rules accept the row, its id and its request are new, and its lines fit the balances. */
  predicate Admissible(w: World, m: Movement) {
    && Accepted(w.journal, m)
    && (forall u :: u in w.live ==> w.live[u].draft.id != m.id)
    && (forall k :: 0 <= k < |w.journal| ==> w.journal[k].actor != m.actor || w.journal[k].requestId != m.requestId)
    && LinesFit(w.tables, m, PerUnit(w.journal, m))
  }

  lemma AdmissiblePasses(w: World, m: Movement)
    requires Admissible(w, m)
    ensures Valid(m) && FreshId(w, m.id) && !Taken(w.journal, m) && HeaderTriggers(w.journal, m) && LineTriggers(w.journal, m)
  {
  }

  /** The rows read are the committed rows at the movement's keys. */
  lemma SeenFits(w: World, m: Movement, seen: Tables, perUnit: int)
    requires LinesFit(w.tables, m, perUnit)
    requires seen == Tables(SelectStock(w.tables.stock, m), SelectCustody(w.tables.custody, m))
    ensures LinesFit(seen, m, perUnit)
  {
    forall k | 0 <= k < |m.lines|
      ensures LineFits(seen, m.source, m.destination, m.custody, perUnit, m.lines[k].item, m.lines[k].quantity)
    {
      assert m.lines[k].item in Items(m.lines);
    }
  }

  lemma ReadRowsFit(w: World, m: Movement, seen: Tables)
    requires CommittedOk(w) && Admissible(w, m)
    requires seen == Tables(SelectStock(w.tables.stock, m), SelectCustody(w.tables.custody, m))
    ensures CheckLines(seen, m, Sign(w.journal, m), m.lines).None?
  {
    PerUnitIsSign(w.journal, m);
    if m.custody.Some? {
      CustodySignNonzero(w.journal, m);
    }
    SeenFits(w, m, seen, PerUnit(w.journal, m));
    CheckLinesIff(seen, m, Sign(w.journal, m));
  }

  /** Numbering does not matter to the checks. */
  lemma Numberless(w: World, m: Movement, n: nat, seen: Tables)
    requires CheckLines(seen, m, Sign(w.journal, m), m.lines).None? && HeaderTriggers(w.journal, m) && LineTriggers(w.journal, m)
    ensures var m1 := m.(seqNo := n);
            CheckLines(seen, m1, Sign(w.journal, m1), m1.lines).None? && LineTriggers(w.journal, m1)
  {
    forall k | 0 <= k < |m.lines| ensures CheckLine(seen, m.(seqNo := n), Sign(w.journal, m), m.lines[k]).None? {
      CheckedEach(seen, m, Sign(w.journal, m), m.lines, k);
    }
    AllLinesPass(seen, m.(seqNo := n), Sign(w.journal, m), m.lines);
    assert forall k :: 0 <= k < |m.lines| ==> LineAccepted(w.journal, m, m.lines[k]);
  }

  /** Header and lines go in. */
  lemma HeaderAndLines(w: World, t: Id, m: Movement, seen: Tables, a: seq<Step>)
    requires ExecAll(w, a) == Update(w, t, Tx(m, Needed(m), BalancesRead(seen))) && HeaderTriggers(w.journal, m)
    requires CheckLines(seen, m, Sign(w.journal, m), m.lines).None? && LineTriggers(w.journal, m)
    ensures ExecAll(w, a + [InsertHeader(t)] + [InsertLines(t)])
         == Update(w, t, Tx(m.(seqNo := w.nextSeq), Needed(m), Lined(seen, 0, Tables(map[], map[])))).(nextSeq := w.nextSeq + 1)
  {
    Numberless(w, m, w.nextSeq, seen);
    Then(w, a, InsertHeader(t));
    HeaderStep(w, t, m, Needed(m), seen);
    Then(w, a + [InsertHeader(t)], InsertLines(t));
    LinesStep(w.(nextSeq := w.nextSeq + 1), t, m.(seqNo := w.nextSeq), Needed(m), seen);
  }

  lemma Passing(w: World, t: Id, m: Movement, seen: Tables) returns (steps: seq<Step>)
    requires t !in w.live && Valid(m) && FreshId(w, m.id) && !Taken(w.journal, m) && FreeFor(w, t, Needed(m))
    requires seen == Tables(SelectStock(w.tables.stock, m), SelectCustody(w.tables.custody, m))
    requires HeaderTriggers(w.journal, m) && LineTriggers(w.journal, m) && CheckLines(seen, m, Sign(w.journal, m), m.lines).None?
    ensures Own(steps, t) && NoRefresh(steps)
    ensures ExecAll(w, steps) == Update(w, t, Tx(m.(seqNo := w.nextSeq), Needed(m), Lined(seen, 0, Tables(map[], map[]))))
                                 .(nextSeq := w.nextSeq + 1)
  {
    var a := Reading(w, t, m);
    HeaderAndLines(w, t, m, seen, a);
    steps := a + [InsertHeader(t)] + [InsertLines(t)];
  }

  lemma Writing(w: World, t: Id, m: Movement) returns (steps: seq<Step>, seen: Tables)
    requires CommittedOk(w) && t !in w.live && Admissible(w, m) && FreeFor(w, t, Needed(m))
    ensures Own(steps, t) && NoRefresh(steps)
    ensures ExecAll(w, steps) == Update(w, t, Tx(m.(seqNo := w.nextSeq), Needed(m), Lined(seen, 0, Tables(map[], map[]))))
                                 .(nextSeq := w.nextSeq + 1)
  {
    seen := Tables(SelectStock(w.tables.stock, m), SelectCustody(w.tables.custody, m));
    AdmissiblePasses(w, m);
    ReadRowsFit(w, m, seen);
    steps := Passing(w, t, m, seen);
  }

  lemma {:induction false} ReachesInv(w: World, steps: seq<Step>)
    requires Inv(w)
    ensures Inv(ExecAll(w, steps))
  {
    if |steps| != 0 {
      ReachesInv(w, steps[..|steps| - 1]);
      StepKeeps(ExecAll(w, steps[..|steps| - 1]), steps[|steps| - 1]);
    }
  }

  /** The end of the transaction: refresh and commit. */
  lemma Finishing(w: World, t: Id) returns (steps: seq<Step>)
    requires Inv(w) && t in w.live && w.live[t].phase.Lined?
    ensures Closing(steps, t)
    ensures var w1 := ExecAll(w, steps);
            && w1.journal == w.journal + [w.live[t].draft] && w1.live == w.live - {t} && w1.nextSeq == w.nextSeq
            && Booked(w.journal, w.live[t].draft, w.tables, w1.tables)
  {
    StartsReady(w, t);
    var refreshing, done := RefreshAllLines(w, t, w.live[t], []);
    ReachesInv(w, refreshing);
    CommitDone(w, t, done);
    Then(w, refreshing, Commit(t));
    steps := refreshing + [Commit(t)];
  }

  lemma StartsReady(w: World, t: Id)
    requires Inv(w) && t in w.live && w.live[t].phase.Lined?
    ensures Ready(w, t) && Update(w, t, w.live[t]) == w && w.live[t].phase.refreshed <= |w.live[t].draft.lines|
  {
    assert TxOk(w.journal, w.nextSeq, w.live[t]);
  }

  lemma CommitDone(w: World, t: Id, done: Tx)
    requires t in w.live && Inv(Update(w, t, done)) && done.phase.Lined? && done.phase.refreshed == |done.draft.lines|
    ensures var w1 := Exec(Update(w, t, done), Commit(t));
            && w1.journal == w.journal + [done.draft] && w1.live == w.live - {t} && w1.nextSeq == w.nextSeq
            && Booked(w.journal, done.draft, w.tables, w1.tables)
  {
    CommitEffect(Update(w, t, done), t);
    assert Update(w, t, done).live - {t} == w.live - {t};
  }

  lemma OwnThenClosing(a: seq<Step>, b: seq<Step>, t: Id)
    requires Own(a, t) && Closing(b, t)
    ensures Own(a + b, t)
  {
  }

  /** The world once a transaction's lines are in. */
  predicate Opened(w: World, t: Id, m: Movement, w1: World) {
    && t in w1.live && w1.live[t].phase.Lined? && w1.live[t].draft == m.(seqNo := w.nextSeq)
    && w1.live - {t} == w.live && w1.journal == w.journal && w1.tables == w.tables && w1.nextSeq == w.nextSeq + 1
  }

  lemma Opening(w: World, t: Id, m: Movement) returns (steps: seq<Step>)
    requires Inv(w) && t !in w.live && Admissible(w, m) && FreeFor(w, t, Needed(m))
    ensures Own(steps, t) && NoRefresh(steps) && Inv(ExecAll(w, steps)) && Opened(w, t, m, ExecAll(w, steps))
  {
    var seen;
    steps, seen := Writing(w, t, m);
    ReachesInv(w, steps);
    assert ExecAll(w, steps).live - {t} == w.live;
  }

  lemma BooksAlone(w: World, t: Id, m: Movement) returns (steps: seq<Step>)
    requires Inv(w) && t !in w.live && Admissible(w, m) && FreeFor(w, t, Needed(m))
    ensures Own(steps, t)
    ensures var w1 := ExecAll(w, steps);
            && w1.journal == w.journal + [m.(seqNo := w.nextSeq)] && w1.live == w.live && w1.nextSeq == w.nextSeq + 1
            && Booked(w.journal, m.(seqNo := w.nextSeq), w.tables, w1.tables)
  {
    var opening := Opening(w, t, m);
    var finishing := Finishing(ExecAll(w, opening), t);
    Chained(w, opening, finishing);
    OwnThenClosing(opening, finishing, t);
    steps := opening + finishing;
  }

  /** From every reachable world, a movement the triggers accept, whose request is new, whose lines fit the
      balances and whose locks nobody holds can be booked by the statements of its transaction alone: it gets the
      next number, and every line moves its quantity. */
  lemma {:induction false} AdmissibleIsBooked(before: seq<Step>, t: Id, m: Movement) returns (steps: seq<Step>)
    requires t !in Run(before).live && Admissible(Run(before), m) && FreeFor(Run(before), t, Needed(m))
    ensures Own(steps, t)
    ensures var w, w1 := Run(before), Run(before + steps);
            && w1.journal == w.journal + [m.(seqNo := w.nextSeq)] && w1.live == w.live
            && Booked(w.journal, m.(seqNo := w.nextSeq), w.tables, w1.tables)
  {
    RunKeeps(before);
    steps := BooksAlone(Run(before), t, m);
    ContinuesRun(before, steps);
  }

  // ----- Nothing stays blocked -----

  lemma RollBackOne(w: World, t: Id)
    requires t in w.live
    ensures ExecAll(w, [] + [Abort(t)]) == w.(live := w.live - {t})
  {
    Then(w, [], Abort(t));
  }

  lemma {:induction false} RollBackAll(w: World) returns (steps: seq<Step>)
    ensures ExecAll(w, steps) == w.(live := map[])
    decreases |w.live.Keys|
  {
    if w.live.Keys != {} {
      var t := LockProtocol.SomeMember(w.live.Keys);
      assert (w.live - {t}).Keys == w.live.Keys - {t};
      RollBackOne(w, t);
      var rest := RollBackAll(w.(live := w.live - {t}));
      Chained(w, [] + [Abort(t)], rest);
      steps := [] + [Abort(t)] + rest;
    } else {
      steps := [];
      assert w.live == map[];
    }
  }

  /** What the committed rows ask of a movement. */
  predicate Allowed(w: World, m: Movement) {
    && Accepted(w.journal, m) && LinesFit(w.tables, m, PerUnit(w.journal, m))
    && forall k :: 0 <= k < |w.journal| ==> w.journal[k].actor != m.actor || w.journal[k].requestId != m.requestId
  }

  lemma FreedIsAdmissible(w: World, t: Id, m: Movement)
    requires Allowed(w, m)
    ensures var w1 := w.(live := map[]); Admissible(w1, m) && FreeFor(w1, t, Needed(m))
  {
  }

  lemma BooksOnceFreed(w: World, t: Id, m: Movement) returns (steps: seq<Step>)
    requires Inv(w) && Allowed(w, m)
    ensures var w1 := ExecAll(w, steps);
            && w1.journal == w.journal + [m.(seqNo := w.nextSeq)] && w1.live == map[]
            && Booked(w.journal, m.(seqNo := w.nextSeq), w.tables, w1.tables)
  {
    var freeing := RollBackAll(w);
    ReachesInv(w, freeing);
    FreedIsAdmissible(w, t, m);
    var booking := BooksAlone(w.(live := map[]), t, m);
    Chained(w, freeing, booking);
    steps := freeing + booking;
  }

  /** Whatever transactions are under way and wherever they wait, once they are rolled back a movement the committed rows
      allow is booked; rolling back loses nothing committed. */
  lemma {:induction false} NeverBlocked(before: seq<Step>, t: Id, m: Movement) returns (steps: seq<Step>)
    requires Allowed(Run(before), m)
    ensures var w, w1 := Run(before), Run(before + steps);
            && w1.journal == w.journal + [m.(seqNo := w.nextSeq)] && w1.live == map[]
            && Booked(w.journal, m.(seqNo := w.nextSeq), w.tables, w1.tables)
  {
    RunKeeps(before);
    steps := BooksOnceFreed(Run(before), t, m);
    ContinuesRun(before, steps);
  }
}
