/** Interleaved movement transactions at READ COMMITTED. Each step is one statement: it sees the
    committed rows and the transaction's own rows. Row locks and advisory locks are exclusive and held
    until commit or abort; a step that has to wait, or does not apply, leaves the world as it is. */
module LedgerRuns {
  import opened Journal
  import opened Reversals
  import opened Projections

  datatype Lock = RequestLock(actor: Id, requestId: string) | OriginalLock(movement: Id) | ItemLock(item: Id)

  datatype Phase =
    | Starting                                            // taking locks
    | Fresh                                               // no committed movement under the request key
    | StockRead(stock: map<(Id, Id), int>)                // first balance query done
    | BalancesRead(seen: Tables)                          // second balance query done
    | Headed(seen: Tables)                                // header inserted, sequence number drawn
    | Lined(seen: Tables, refreshed: nat, writes: Tables) // lines inserted, some rows refreshed

  /** `draft` is the row the transaction will insert; `writes` are its uncommitted table rows, zero
      standing for a deleted row. */
  datatype Tx = Tx(draft: Movement, held: set<Lock>, phase: Phase)

  datatype World = World(journal: seq<Movement>, tables: Tables, nextSeq: nat, live: map<Id, Tx>)

  datatype Step =
    | Begin(tx: Id, draft: Movement)
    | Acquire(tx: Id, lock: Lock)
    | CheckReplay(tx: Id)
    | ReadStock(tx: Id)
    | ReadCustody(tx: Id)
    | InsertHeader(tx: Id)
    | InsertLines(tx: Id)
    | RefreshNext(tx: Id, holderOk: bool)
    | Commit(tx: Id)
    | Abort(tx: Id)

  // ----- Statements -----

  /** What validation of the request alone establishes about the row to insert. */
  predicate Valid(m: Movement) {
    && LineCountSealed(m) && DistinctItems(m.lines) && PositionsAllowed(m) && Linked(m.kind) == m.original.Some?
  }

  predicate SameRequest(a: Movement, b: Movement) {
    a.actor == b.actor && a.requestId == b.requestId
  }

  predicate Taken(journal: seq<Movement>, m: Movement) {
    exists k :: 0 <= k < |journal| && SameRequest(journal[k], m)
  }

  predicate HoldsAll(tx: Tx) {
    && (forall k :: 0 <= k < |tx.draft.lines| ==> ItemLock(tx.draft.lines[k].item) in tx.held)
    && (tx.draft.original.Some? ==> OriginalLock(tx.draft.original.value) in tx.held)
  }

  /** The stock rows of the movement's items at its locations. */
  function SelectStock(stock: map<(Id, Id), int>, m: Movement): map<(Id, Id), int> {
    map key | key in stock && key.0 in Items(m.lines) && (m.source == Some(key.1) || m.destination == Some(key.1))
      :: stock[key]
  }

  function SelectCustody(custody: map<(Id, Id), int>, m: Movement): map<(Id, Id), int> {
    map key | key in custody && m.custody == Some(key.0) && key.1 in Items(m.lines) :: custody[key]
  }

  function Sign(journal: seq<Movement>, m: Movement): int {
    ServiceCustodySign(m.kind, if m.original.Some? then Find(journal, m.original.value) else None)
  }

  predicate HeaderTriggers(journal: seq<Movement>, m: Movement) {
    HeaderAccepted(journal, m) && CustodyAccepted(journal, m) && NotReversedTwice(journal, m)
  }

  predicate LineTriggers(journal: seq<Movement>, m: Movement) {
    forall k :: 0 <= k < |m.lines| ==> LineAccepted(journal, m, m.lines[k])
  }

  /** The table as the transaction sees it. */
  function Overlay(table: map<(Id, Id), int>, writes: map<(Id, Id), int>): map<(Id, Id), int> {
    map key | key in table.Keys + writes.Keys && (if key in writes then writes[key] else table[key]) != 0
      :: if key in writes then writes[key] else table[key]
  }

  function View(t: Tables, writes: Tables): Tables {
    Tables(Overlay(t.stock, writes.stock), Overlay(t.custody, writes.custody))
  }

  function StockKeys(m: Movement, item: Id): set<(Id, Id)> {
    (if m.source.Some? then {(item, m.source.value)} else {})
    + (if m.destination.Some? then {(item, m.destination.value)} else {})
  }

  function CustodyKeys(m: Movement, item: Id): set<(Id, Id)> {
    if m.custody.Some? then {(m.custody.value, item)} else {}
  }

  /** The rows one refresh call leaves behind, as uncommitted writes. */
  function Record(writes: Tables, m: Movement, item: Id, after: Tables): Tables {
    Tables(writes.stock + map key | key in StockKeys(m, item) :: Row(after.stock, key),
           writes.custody + map key | key in CustodyKeys(m, item) :: Row(after.custody, key))
  }

  function RefreshIn(w: World, t: Id, holderOk: bool): Refreshed
    requires t in w.live && w.live[t].phase.Lined? && w.live[t].phase.refreshed < |w.live[t].draft.lines|
  {
    var tx := w.live[t];
    Refresh(w.journal + [tx.draft], View(w.tables, tx.phase.writes), tx.draft.id,
            tx.draft.lines[tx.phase.refreshed].item, user => holderOk)
  }

  /** The row gets the next number, above all committed ones. */
  function WithHeader(tx: Tx, n: nat): Tx
    requires tx.phase.BalancesRead?
  {
    tx.(draft := tx.draft.(seqNo := n), phase := Headed(tx.phase.seen))
  }

  /** One more line refreshed. */
  function Advanced(tx: Tx, after: Tables): Tx
    requires tx.phase.Lined? && tx.phase.refreshed < |tx.draft.lines|
  {
    tx.(phase := tx.phase.(refreshed := tx.phase.refreshed + 1,
                           writes := Record(tx.phase.writes, tx.draft, tx.draft.lines[tx.phase.refreshed].item, after)))
  }

  function Update(w: World, t: Id, tx: Tx): World {
    w.(live := w.live[t := tx])
  }

  function End(w: World, t: Id): World {
    w.(live := w.live - {t})
  }

  function RefreshNextIn(w: World, t: Id, holderOk: bool): World
    requires t in w.live
  {
    var tx := w.live[t];
    if !tx.phase.Lined? || tx.phase.refreshed >= |tx.draft.lines| then w
    else
      var after := RefreshIn(w, t, holderOk);
      if after.Ok? then Update(w, t, Advanced(tx, after.tables)) else End(w, t)
  }

  function InsertHeaderIn(w: World, t: Id): World
    requires t in w.live
  {
    var tx := w.live[t];
    if !tx.phase.BalancesRead? then w
    else if !HeaderTriggers(w.journal, tx.draft) then End(w, t)
    else Update(w, t, WithHeader(tx, w.nextSeq)).(nextSeq := w.nextSeq + 1)
  }

  function CommitIn(w: World, t: Id): World
    requires t in w.live
  {
    var tx := w.live[t];
    if tx.phase.Lined? && tx.phase.refreshed == |tx.draft.lines|
    then End(w.(journal := w.journal + [tx.draft], tables := View(w.tables, tx.phase.writes)), t) else w
  }

  function AcquireIn(w: World, t: Id, lock: Lock): World
    requires t in w.live
  {
    if forall u :: u in w.live && u != t ==> lock !in w.live[u].held
    then Update(w, t, w.live[t].(held := w.live[t].held + {lock})) else w
  }

  function InsertLinesIn(w: World, t: Id): World
    requires t in w.live
  {
    var tx := w.live[t];
    if !tx.phase.Headed? then w
    else if CheckLines(tx.phase.seen, tx.draft, Sign(w.journal, tx.draft), tx.draft.lines).Some?
            || !LineTriggers(w.journal, tx.draft) then End(w, t)
    else Update(w, t, tx.(phase := Lined(tx.phase.seen, 0, Tables(map[], map[]))))
  }

  function Exec(w: World, s: Step): World {
    if s.Begin? then
      if s.tx !in w.live && Valid(s.draft) && FreshId(w, s.draft.id)
      then Update(w, s.tx, Tx(s.draft, {}, Starting)) else w
    else if s.tx !in w.live then w
    else
      var tx := w.live[s.tx];
      match s
      case Begin(_, _) => w
      case Acquire(_, lock) => AcquireIn(w, s.tx, lock)
      case CheckReplay(_) =>
        if !tx.phase.Starting? || RequestLock(tx.draft.actor, tx.draft.requestId) !in tx.held then w
        else if Taken(w.journal, tx.draft) then End(w, s.tx)
        else Update(w, s.tx, tx.(phase := Fresh))
      case ReadStock(_) =>
        if tx.phase.Fresh? && HoldsAll(tx)
        then Update(w, s.tx, tx.(phase := StockRead(SelectStock(w.tables.stock, tx.draft)))) else w
      case ReadCustody(_) =>
        if tx.phase.StockRead?
        then Update(w, s.tx, tx.(phase := BalancesRead(Tables(tx.phase.stock, SelectCustody(w.tables.custody, tx.draft)))))
        else w
      case InsertHeader(_) => InsertHeaderIn(w, s.tx)
      case InsertLines(_) => InsertLinesIn(w, s.tx)
      case RefreshNext(_, holderOk) => RefreshNextIn(w, s.tx, holderOk)
      case Commit(_) => CommitIn(w, s.tx)
      case Abort(_) => End(w, s.tx)
  }

  /** uuid4: never an id already used. */
  predicate FreshId(w: World, id: Id) {
    && (forall k :: 0 <= k < |w.journal| ==> w.journal[k].id != id)
    && (forall u :: u in w.live ==> w.live[u].draft.id != id)
  }

  const START := World([], Tables(map[], map[]), 1, map[])

  function Run(steps: seq<Step>): World {
    if |steps| == 0 then START else Exec(Run(steps[..|steps| - 1]), steps[|steps| - 1])
  }

  // ----- The invariant -----

  predicate Numbered(tx: Tx) {
    tx.phase.Headed? || tx.phase.Lined?
  }

  /** The rows of the first n refreshed lines, as the journal extended by the draft has them. */
  ghost predicate WritesRight(journal: seq<Movement>, m: Movement, n: nat, writes: Tables)
    requires n <= |m.lines|
  {
    StockWritesRight(journal + [m], m, n, writes.stock) && CustodyWritesRight(journal + [m], m, n, writes.custody)
  }

  ghost predicate StockWritesRight(j: seq<Movement>, m: Movement, n: nat, stock: map<(Id, Id), int>)
    requires n <= |m.lines|
  {
    && (forall i, l :: (i, l) in stock <==> i in Items(m.lines[..n]) && (m.source == Some(l) || m.destination == Some(l)))
    && (forall i, l :: (i, l) in stock ==> stock[(i, l)] == StockSum(j, i, l) && InRange(StockSum(j, i, l)))
  }

  ghost predicate CustodyWritesRight(j: seq<Movement>, m: Movement, n: nat, custody: map<(Id, Id), int>)
    requires n <= |m.lines|
  {
    && (forall i, u :: (u, i) in custody <==> i in Items(m.lines[..n]) && m.custody == Some(u))
    && (forall i, u :: (u, i) in custody ==> custody[(u, i)] == CustodySum(j, i, u) && InRange(CustodySum(j, i, u)))
  }

  ghost predicate StockSeenRight(journal: seq<Movement>, m: Movement, stock: map<(Id, Id), int>) {
    forall i, l :: i in Items(m.lines) && (m.source == Some(l) || m.destination == Some(l))
                   ==> Row(stock, (i, l)) == StockSum(journal, i, l)
  }

  ghost predicate CustodySeenRight(journal: seq<Movement>, m: Movement, custody: map<(Id, Id), int>) {
    forall i, u :: i in Items(m.lines) && m.custody == Some(u) ==> Row(custody, (u, i)) == CustodySum(journal, i, u)
  }

  ghost predicate Later(journal: seq<Movement>, m: Movement) {
    forall k, item :: 0 <= k < |journal| && Touches(journal[k], item) && Touches(m, item) ==> journal[k].seqNo < m.seqNo
  }

  predicate UnusedSeq(journal: seq<Movement>, n: nat) {
    forall k :: 0 <= k < |journal| ==> journal[k].seqNo != n
  }

  /** What a live transaction may rely on, statement after statement. */
  ghost predicate TxOk(journal: seq<Movement>, nextSeq: nat, tx: Tx) {
    var m := tx.draft;
    && Valid(m)
    && (forall k :: 0 <= k < |journal| ==> journal[k].id != m.id)
    && (!tx.phase.Starting? ==> RequestLock(m.actor, m.requestId) in tx.held && !Taken(journal, m))
    && (!tx.phase.Starting? && !tx.phase.Fresh? ==> HoldsAll(tx))
    && (tx.phase.StockRead? ==> StockSeenRight(journal, m, tx.phase.stock))
    && (tx.phase.BalancesRead? || Numbered(tx) ==>
          StockSeenRight(journal, m, tx.phase.seen.stock) && CustodySeenRight(journal, m, tx.phase.seen.custody))
    && (Numbered(tx) ==> m.seqNo < nextSeq && UnusedSeq(journal, m.seqNo) && Later(journal, m) && HeaderTriggers(journal, m))
    && (tx.phase.Lined? ==>
          && Accepted(journal, m)
          && CheckLines(tx.phase.seen, m, Sign(journal, m), m.lines).None?
          && tx.phase.refreshed <= |m.lines|
          && WritesRight(journal, m, tx.phase.refreshed, tx.phase.writes))
  }

  /** The committed rows. */
  ghost predicate CommittedOk(w: World) {
    && AcceptedJournal(w.journal)
    && Agree(w.journal, w.tables)
    && (forall k :: 0 <= k < |w.journal| ==> w.journal[k].seqNo < w.nextSeq)
    && Ordered(w.journal)
    && PrefixesInRange(w.journal)
  }

  /** Sequence numbers and request keys are unique, and movements of one item commit in sequence order. */
  ghost predicate Ordered(journal: seq<Movement>) {
    forall k :: 0 <= k < |journal| ==> Next(journal[..k], journal[k])
  }

  ghost predicate Next(earlier: seq<Movement>, m: Movement) {
    UnusedSeq(earlier, m.seqNo) && Later(earlier, m) && !Taken(earlier, m)
  }

  ghost predicate PrefixesInRange(journal: seq<Movement>) {
    forall k :: 0 <= k <= |journal| ==> SumsInRange(journal[..k])
  }

  ghost predicate SumsInRange(journal: seq<Movement>) {
    && (forall item, location :: InRange(StockSum(journal, item, location)))
    && (forall item, user :: InRange(CustodySum(journal, item, user)))
  }

  predicate Apart(a: Tx, b: Tx) {
    && a.held !! b.held
    && a.draft.id != b.draft.id
    && (Numbered(a) && Numbered(b) ==> a.draft.seqNo != b.draft.seqNo)
  }

  ghost predicate Inv(w: World) {
    && CommittedOk(w)
    && (forall t :: t in w.live ==> TxOk(w.journal, w.nextSeq, w.live[t]))
    && (forall t, u :: t in w.live && u in w.live && t != u ==> Apart(w.live[t], w.live[u]))
  }

  // ----- Another transaction's commit changes nothing a lock holder relies on -----

  lemma SumsIgnore(journal: seq<Movement>, m2: Movement, item: Id)
    requires WellLinked(journal) && !Touches(m2, item)
    ensures forall l :: StockSum(journal + [m2], item, l) == StockSum(journal, item, l)
    ensures forall u :: CustodySum(journal + [m2], item, u) == CustodySum(journal, item, u)
  {
    UntouchedEffects(journal + [m2], m2, item);
    forall l ensures StockSum(journal + [m2], item, l) == StockSum(journal, item, l) {
      StockSnoc(journal, m2, item, l);
    }
    forall u ensures CustodySum(journal + [m2], item, u) == CustodySum(journal, item, u) {
      CustodySnoc(journal, m2, item, u);
    }
  }

  /** Two lock holders work on different items, originals and request keys. */
  lemma LocksSeparate(a: Tx, b: Tx)
    requires a.held !! b.held
    ensures HoldsAll(a) && HoldsAll(b) ==>
              && (forall item :: !(Touches(a.draft, item) && Touches(b.draft, item)))
              && (a.draft.original.Some? ==> a.draft.original != b.draft.original)
    ensures RequestLock(a.draft.actor, a.draft.requestId) in a.held && RequestLock(b.draft.actor, b.draft.requestId) in b.held
            ==> !SameRequest(a.draft, b.draft)
  {
  }

  lemma SeenStable(journal: seq<Movement>, m2: Movement, m: Movement)
    requires WellLinked(journal)
    requires forall item :: !(Touches(m, item) && Touches(m2, item))
    ensures forall i, l :: i in Items(m.lines) ==> StockSum(journal + [m2], i, l) == StockSum(journal, i, l)
    ensures forall i, u :: i in Items(m.lines) ==> CustodySum(journal + [m2], i, u) == CustodySum(journal, i, u)
  {
    forall i | i in Items(m.lines)
      ensures forall l :: StockSum(journal + [m2], i, l) == StockSum(journal, i, l)
      ensures forall u :: CustodySum(journal + [m2], i, u) == CustodySum(journal, i, u)
    {
      assert Touches(m, i);
      SumsIgnore(journal, m2, i);
    }
  }

  lemma LinkStable(journal: seq<Movement>, m2: Movement, m: Movement)
    requires HeaderTriggers(journal, m)
    requires m2.kind.Reversal? && m.kind.Reversal? ==> m.original != m2.original
    ensures HeaderTriggers(journal + [m2], m)
    ensures LineTriggers(journal, m) ==> LineTriggers(journal + [m2], m)
    ensures Linked(m.kind) && m.original.Some? ==> Find(journal + [m2], m.original.value) == Find(journal, m.original.value)
  {
    if Linked(m.kind) && m.original.Some? {
      FindExtends(journal, [m2], m.original.value);
    }
  }

  /** The extended sums of a lock holder's items survive the other commit. */
  lemma ExtendedStable(journal: seq<Movement>, m2: Movement, m: Movement, i: Id)
    requires AcceptedJournal(journal) && Accepted(journal, m2) && Accepted(journal, m) && Accepted(journal + [m2], m)
    requires !Touches(m2, i)
    ensures forall l :: StockSum(journal + [m2] + [m], i, l) == StockSum(journal + [m], i, l)
    ensures forall u :: CustodySum(journal + [m2] + [m], i, u) == CustodySum(journal + [m], i, u)
  {
    AcceptedIsWellLinked(journal);
    AcceptedSnoc(journal, m2);
    AcceptedIsWellLinked(journal + [m2]);
    SumsIgnore(journal, m2, i);
    forall l ensures StockSum(journal + [m2] + [m], i, l) == StockSum(journal + [m], i, l) {
      StockSnoc(journal, m, i, l);
      StockSnoc(journal + [m2], m, i, l);
    }
    forall u ensures CustodySum(journal + [m2] + [m], i, u) == CustodySum(journal + [m], i, u) {
      CustodySnoc(journal, m, i, u);
      CustodySnoc(journal + [m2], m, i, u);
      if m.original.Some? {
        FindExtends(journal, [m], m.original.value);
        FindExtends(journal, [m2], m.original.value);
        FindExtends(journal + [m2], [m], m.original.value);
      }
    }
  }

  lemma WritesStable(journal: seq<Movement>, m2: Movement, m: Movement, n: nat, writes: Tables)
    requires AcceptedJournal(journal) && Accepted(journal, m2) && Accepted(journal, m) && Accepted(journal + [m2], m)
    requires forall item :: !(Touches(m, item) && Touches(m2, item))
    requires n <= |m.lines| && WritesRight(journal, m, n, writes)
    ensures WritesRight(journal + [m2], m, n, writes)
  {
    forall i | i in Items(m.lines[..n])
      ensures forall l :: StockSum(journal + [m2] + [m], i, l) == StockSum(journal + [m], i, l)
      ensures forall u :: CustodySum(journal + [m2] + [m], i, u) == CustodySum(journal + [m], i, u)
    {
      var k :| 0 <= k < n && m.lines[..n][k].item == i;
      assert m.lines[k].item == i;
      assert Touches(m, i);
      ExtendedStable(journal, m2, m, i);
    }
  }

  lemma TxStable(journal: seq<Movement>, nextSeq: nat, done: Tx, tx: Tx)
    requires AcceptedJournal(journal) && TxOk(journal, nextSeq, done) && done.phase.Lined?
    requires TxOk(journal, nextSeq, tx) && Apart(done, tx)
    ensures TxOk(journal + [done.draft], nextSeq, tx)
  {
    var m2, m := done.draft, tx.draft;
    AcceptedIsWellLinked(journal);
    LocksSeparate(done, tx);
    if !tx.phase.Starting? && !tx.phase.Fresh? {
      SeenStable(journal, m2, m);
    }
    if Numbered(tx) {
      LinkStable(journal, m2, m);
    }
    if tx.phase.Lined? {
      assert Accepted(journal + [m2], m);
      WritesStable(journal, m2, m, tx.phase.refreshed, tx.phase.writes);
    }
  }

  // ----- Every step keeps the invariant -----

  lemma OnlyOneChanges(w: World, t: Id, tx: Tx)
    requires Inv(w) && TxOk(w.journal, w.nextSeq, tx)
    requires forall u :: u in w.live && u != t ==> Apart(tx, w.live[u])
    ensures Inv(Update(w, t, tx))
  {
  }

  /** The transaction keeps its locks, its row's id and, once drawn, its number. */
  predicate Stays(tx: Tx, tx1: Tx) {
    && tx1.held == tx.held
    && tx1.draft.id == tx.draft.id
    && (Numbered(tx1) ==> Numbered(tx) && tx1.draft.seqNo == tx.draft.seqNo)
  }

  /** A statement that changes nothing but its own transaction: it waits, fails, or leaves tx1. */
  ghost predicate Moves(w: World, t: Id, w1: World, tx1: Tx)
    requires t in w.live
  {
    || w1 == w
    || w1 == End(w, t)
    || (w1 == Update(w, t, tx1) && TxOk(w.journal, w.nextSeq, tx1) && Stays(w.live[t], tx1))
  }

  lemma MovesKeep(w: World, t: Id, w1: World, tx1: Tx)
    requires Inv(w) && t in w.live && Moves(w, t, w1, tx1)
    ensures Inv(w1)
  {
    if w1 == End(w, t) {
      EndKeeps(w, t);
    } else if w1 != w {
      forall u | u in w.live && u != t ensures Apart(tx1, w.live[u]) {
        assert Apart(w.live[t], w.live[u]);
      }
      OnlyOneChanges(w, t, tx1);
    }
  }

  /** What the statement of a transaction may start from. */
  ghost predicate Ready(w: World, t: Id) {
    CommittedOk(w) && t in w.live && TxOk(w.journal, w.nextSeq, w.live[t])
  }

  lemma CheckReplayMoves(w: World, t: Id) returns (tx1: Tx)
    requires Ready(w, t)
    ensures Moves(w, t, Exec(w, CheckReplay(t)), tx1)
  {
    tx1 := w.live[t].(phase := Fresh);
  }

  lemma StockRowsRight(journal: seq<Movement>, t: Tables, m: Movement)
    requires Agree(journal, t)
    ensures StockSeenRight(journal, m, SelectStock(t.stock, m))
  {
    forall i, l | i in Items(m.lines) && (m.source == Some(l) || m.destination == Some(l))
      ensures Row(SelectStock(t.stock, m), (i, l)) == StockSum(journal, i, l)
    {
      assert Row(SelectStock(t.stock, m), (i, l)) == Row(t.stock, (i, l));
    }
  }

  lemma CustodyRowsRight(journal: seq<Movement>, t: Tables, m: Movement)
    requires Agree(journal, t)
    ensures CustodySeenRight(journal, m, SelectCustody(t.custody, m))
  {
    forall i, u | i in Items(m.lines) && m.custody == Some(u)
      ensures Row(SelectCustody(t.custody, m), (u, i)) == CustodySum(journal, i, u)
    {
      assert Row(SelectCustody(t.custody, m), (u, i)) == Row(t.custody, (u, i));
    }
  }

  lemma ReadStockMoves(w: World, t: Id) returns (tx1: Tx)
    requires Ready(w, t)
    ensures Moves(w, t, Exec(w, ReadStock(t)), tx1)
  {
    var tx := w.live[t];
    StockRowsRight(w.journal, w.tables, tx.draft);
    tx1 := tx.(phase := StockRead(SelectStock(w.tables.stock, tx.draft)));
  }

  lemma ReadCustodyMoves(w: World, t: Id) returns (tx1: Tx)
    requires Ready(w, t)
    ensures Moves(w, t, Exec(w, ReadCustody(t)), tx1)
  {
    var tx := w.live[t];
    tx1 := tx;
    if tx.phase.StockRead? {
      CustodyRowsRight(w.journal, w.tables, tx.draft);
      tx1 := tx.(phase := BalancesRead(Tables(tx.phase.stock, SelectCustody(w.tables.custody, tx.draft))));
    }
  }

  lemma NumberDrawn(w: World)
    requires Inv(w)
    ensures Inv(w.(nextSeq := w.nextSeq + 1))
  {
    forall t | t in w.live ensures TxOk(w.journal, w.nextSeq + 1, w.live[t]) {
      assert TxOk(w.journal, w.nextSeq, w.live[t]);
    }
  }

  lemma HeaderTxOk(journal: seq<Movement>, n: nat, tx: Tx)
    requires TxOk(journal, n, tx) && tx.phase.BalancesRead? && HeaderTriggers(journal, tx.draft)
    requires forall k :: 0 <= k < |journal| ==> journal[k].seqNo < n
    ensures TxOk(journal, n + 1, WithHeader(tx, n))
  {
    var m := WithHeader(tx, n).draft;
    assert HeaderTriggers(journal, m);
    assert Valid(m) && !Taken(journal, m);
    assert StockSeenRight(journal, m, tx.phase.seen.stock) && CustodySeenRight(journal, m, tx.phase.seen.custody);
  }

  lemma InsertHeaderKeeps(w: World, t: Id)
    requires Inv(w) && t in w.live
    ensures Inv(InsertHeaderIn(w, t))
  {
    EndKeeps(w, t);
    var tx := w.live[t];
    if tx.phase.BalancesRead? && HeaderTriggers(w.journal, tx.draft) {
      HeaderTxOk(w.journal, w.nextSeq, tx);
      NumberDrawn(w);
      NumbersApart(w, t);
      OnlyOneChanges(w.(nextSeq := w.nextSeq + 1), t, WithHeader(tx, w.nextSeq));
    }
  }

  lemma NumbersApart(w: World, t: Id)
    requires Inv(w) && t in w.live && w.live[t].phase.BalancesRead?
    ensures forall u :: u in w.live && u != t ==> Apart(WithHeader(w.live[t], w.nextSeq), w.live[u])
  {
    forall u | u in w.live && u != t ensures Apart(WithHeader(w.live[t], w.nextSeq), w.live[u]) {
      assert Apart(w.live[t], w.live[u]);
      assert TxOk(w.journal, w.nextSeq, w.live[u]);
    }
  }

  lemma LinesTxOk(journal: seq<Movement>, n: nat, tx: Tx)
    requires TxOk(journal, n, tx) && tx.phase.Headed? && LineTriggers(journal, tx.draft)
    requires CheckLines(tx.phase.seen, tx.draft, Sign(journal, tx.draft), tx.draft.lines).None?
    ensures TxOk(journal, n, tx.(phase := Lined(tx.phase.seen, 0, Tables(map[], map[]))))
  {
    forall k | 0 <= k < |tx.draft.lines| ensures tx.draft.lines[k].quantity > 0 {
      CheckedEach(tx.phase.seen, tx.draft, Sign(journal, tx.draft), tx.draft.lines, k);
    }
    assert Accepted(journal, tx.draft);
    assert Items(tx.draft.lines[..0]) == {};
  }

  lemma InsertLinesMoves(w: World, t: Id) returns (tx1: Tx)
    requires Ready(w, t)
    ensures Moves(w, t, InsertLinesIn(w, t), tx1)
  {
    var tx := w.live[t];
    tx1 := tx;
    if tx.phase.Headed? && CheckLines(tx.phase.seen, tx.draft, Sign(w.journal, tx.draft), tx.draft.lines).None?
       && LineTriggers(w.journal, tx.draft)
    {
      LinesTxOk(w.journal, w.nextSeq, tx);
      tx1 := tx.(phase := Lined(tx.phase.seen, 0, Tables(map[], map[])));
    }
  }

  lemma OverlayRow(table: map<(Id, Id), int>, writes: map<(Id, Id), int>)
    requires PositiveRows(table) && forall key :: key in writes ==> InRange(writes[key])
    ensures PositiveRows(Overlay(table, writes))
    ensures forall key :: Row(Overlay(table, writes), key) == if key in writes then writes[key] else Row(table, key)
  {
  }

  /** The sums at the next line's keys are old balance plus delta and in range. */
  lemma NextSums(journal: seq<Movement>, n: nat, tx: Tx)
    requires AcceptedJournal(journal) && TxOk(journal, n, tx) && tx.phase.Lined? && tx.phase.refreshed < |tx.draft.lines|
    ensures var m, j, item := tx.draft, journal + [tx.draft], tx.draft.lines[tx.phase.refreshed].item;
            && Find(j, m.id) == Some(m) && Touches(m, item)
            && (m.source.Some? ==> InRange(StockSum(j, item, m.source.value)))
            && (m.destination.Some? ==> InRange(StockSum(j, item, m.destination.value)))
            && (m.custody.Some? ==> InRange(CustodySum(j, item, m.custody.value)))
            && (forall l :: StockSum(j, item, l) == StockSum(journal, item, l) + StockDelta(m, item, l))
            && (forall u :: CustodySum(j, item, u) == CustodySum(journal, item, u) + CustodyDelta(j, m, item, u))
  {
    var m, k, j := tx.draft, tx.phase.refreshed, journal + [tx.draft];
    var item := m.lines[k].item;
    FindAppended(journal, m);
    AcceptedIsWellLinked(journal);
    SeenIsRight(journal, m, tx.phase.seen);
    CheckedLineInRange(journal, m, tx.phase.seen, Sign(journal, m), k);
    assert Touches(m, item);
    forall l ensures StockSum(j, item, l) == StockSum(journal, item, l) + StockDelta(m, item, l) {
      StockSnoc(journal, m, item, l);
    }
    forall u ensures CustodySum(j, item, u) == CustodySum(journal, item, u) + CustodyDelta(j, m, item, u) {
      CustodySnoc(journal, m, item, u);
    }
  }

  /** Only the holder trigger can stop a refresh that would otherwise succeed. */
  lemma HolderDecides(journal: seq<Movement>, t: Tables, movement: Id, item: Id, holderOk: bool)
    ensures var all := Refresh(journal, t, movement, item, user => true);
            var r := Refresh(journal, t, movement, item, user => holderOk);
            r == all || r.HolderIneligible?
  {
  }

  /** What the next refresh call of a transaction returns and leaves behind. */
  ghost predicate Refreshes(w: World, tx: Tx, after: Refreshed)
    requires tx.phase.Lined? && tx.phase.refreshed < |tx.draft.lines|
  {
    var m, item := tx.draft, tx.draft.lines[tx.phase.refreshed].item;
    && after.Ok?
    && (forall l :: m.source == Some(l) || m.destination == Some(l) ==>
          Row(after.tables.stock, (item, l)) == Row(w.tables.stock, (item, l)) + StockDelta(m, item, l))
    && (forall u :: m.custody == Some(u) ==>
          Row(after.tables.custody, (u, item))
          == Row(w.tables.custody, (u, item)) + CustodyDelta(w.journal + [m], m, item, u))
    && WritesRight(w.journal, m, tx.phase.refreshed + 1, Record(tx.phase.writes, m, item, after.tables))
  }

  lemma RefreshOf(w: World, tx: Tx)
    requires CommittedOk(w) && TxOk(w.journal, w.nextSeq, tx) && tx.phase.Lined? && tx.phase.refreshed < |tx.draft.lines|
    ensures Refreshes(w, tx, Refresh(w.journal + [tx.draft], View(w.tables, tx.phase.writes), tx.draft.id,
                                     tx.draft.lines[tx.phase.refreshed].item, user => true))
  {
    var m, n, j := tx.draft, tx.phase.refreshed, w.journal + [tx.draft];
    var item := m.lines[n].item;
    NextSums(w.journal, w.nextSeq, tx);
    WritesInRange(w.journal, m, n, tx.phase.writes);
    OverlayRow(w.tables.stock, tx.phase.writes.stock);
    OverlayRow(w.tables.custody, tx.phase.writes.custody);
    RefreshWrites(j, View(w.tables, tx.phase.writes), m, item, user => true);
    RecordRight(w.journal, m, n, tx.phase.writes,
                Refresh(j, View(w.tables, tx.phase.writes), m.id, item, user => true).tables);
  }

  /** A refresh call never finds a balance out of range: it writes old balance plus delta, whatever commits in
      between. */
  lemma {:induction false} RefreshSucceeds(w: World, t: Id, holderOk: bool)
    requires Ready(w, t) && w.live[t].phase.Lined? && w.live[t].phase.refreshed < |w.live[t].draft.lines|
    ensures Refreshes(w, w.live[t], RefreshIn(w, t, true))
    ensures RefreshIn(w, t, holderOk) == RefreshIn(w, t, true) || RefreshIn(w, t, holderOk).HolderIneligible?
  {
    var tx := w.live[t];
    RefreshOf(w, tx);
    HolderDecides(w.journal + [tx.draft], View(w.tables, tx.phase.writes), tx.draft.id,
                  tx.draft.lines[tx.phase.refreshed].item, holderOk);
  }

  lemma SeenIsRight(journal: seq<Movement>, m: Movement, seen: Tables)
    requires StockSeenRight(journal, m, seen.stock) && CustodySeenRight(journal, m, seen.custody)
    ensures SeenRight(journal, m, seen)
  {
    assert forall k :: 0 <= k < |m.lines| ==> m.lines[k].item in Items(m.lines);
  }

  lemma WritesInRange(journal: seq<Movement>, m: Movement, n: nat, writes: Tables)
    requires n <= |m.lines| && WritesRight(journal, m, n, writes)
    ensures forall key :: key in writes.stock ==> InRange(writes.stock[key])
    ensures forall key :: key in writes.custody ==> InRange(writes.custody[key])
  {
    forall key | key in writes.stock ensures InRange(writes.stock[key]) {
      var (i, l) := key;
      assert (i, l) in writes.stock;
    }
    forall key | key in writes.custody ensures InRange(writes.custody[key]) {
      var (u, i) := key;
      assert (u, i) in writes.custody;
    }
  }

  lemma RecordRight(journal: seq<Movement>, m: Movement, n: nat, writes: Tables, after: Tables)
    requires n < |m.lines| && WritesRight(journal, m, n, writes)
    requires var item := m.lines[n].item; var j := journal + [m];
             && (forall l :: m.source == Some(l) || m.destination == Some(l) ==>
                   Row(after.stock, (item, l)) == StockSum(j, item, l) && InRange(StockSum(j, item, l)))
             && (forall u :: m.custody == Some(u) ==>
                   Row(after.custody, (u, item)) == CustodySum(j, item, u) && InRange(CustodySum(j, item, u)))
    ensures WritesRight(journal, m, n + 1, Record(writes, m, m.lines[n].item, after))
  {
    RecordStock(journal + [m], m, n, writes, after);
    RecordCustody(journal + [m], m, n, writes, after);
  }

  lemma RecordStock(j: seq<Movement>, m: Movement, n: nat, writes: Tables, after: Tables)
    requires n < |m.lines| && StockWritesRight(j, m, n, writes.stock)
    requires forall l :: m.source == Some(l) || m.destination == Some(l) ==>
               Row(after.stock, (m.lines[n].item, l)) == StockSum(j, m.lines[n].item, l) && InRange(StockSum(j, m.lines[n].item, l))
    ensures StockWritesRight(j, m, n + 1, Record(writes, m, m.lines[n].item, after).stock)
  {
    ItemsGrow(m.lines, n);
  }

  lemma RecordCustody(j: seq<Movement>, m: Movement, n: nat, writes: Tables, after: Tables)
    requires n < |m.lines| && CustodyWritesRight(j, m, n, writes.custody)
    requires forall u :: m.custody == Some(u) ==>
               Row(after.custody, (u, m.lines[n].item)) == CustodySum(j, m.lines[n].item, u)
               && InRange(CustodySum(j, m.lines[n].item, u))
    ensures CustodyWritesRight(j, m, n + 1, Record(writes, m, m.lines[n].item, after).custody)
  {
    ItemsGrow(m.lines, n);
  }

  lemma AdvancedOk(w: World, tx: Tx, after: Refreshed)
    requires TxOk(w.journal, w.nextSeq, tx) && tx.phase.Lined? && tx.phase.refreshed < |tx.draft.lines|
    requires Refreshes(w, tx, after)
    ensures TxOk(w.journal, w.nextSeq, Advanced(tx, after.tables))
  {
  }

  lemma RefreshedTxOk(w: World, t: Id, holderOk: bool)
    requires Ready(w, t) && w.live[t].phase.Lined? && w.live[t].phase.refreshed < |w.live[t].draft.lines|
    requires RefreshIn(w, t, holderOk).Ok?
    ensures TxOk(w.journal, w.nextSeq, Advanced(w.live[t], RefreshIn(w, t, holderOk).tables))
  {
    RefreshSucceeds(w, t, holderOk);
    AdvancedOk(w, w.live[t], RefreshIn(w, t, holderOk));
  }

  lemma RefreshNextMoves(w: World, t: Id, holderOk: bool) returns (tx1: Tx)
    requires Ready(w, t)
    ensures Moves(w, t, RefreshNextIn(w, t, holderOk), tx1)
  {
    var tx := w.live[t];
    tx1 := tx;
    if tx.phase.Lined? && tx.phase.refreshed < |tx.draft.lines| && RefreshIn(w, t, holderOk).Ok? {
      RefreshedTxOk(w, t, holderOk);
      tx1 := Advanced(tx, RefreshIn(w, t, holderOk).tables);
    }
  }

  lemma CommittedStock(journal: seq<Movement>, m: Movement, t: Tables, writes: Tables, i: Id, l: Id)
    requires AcceptedJournal(journal) && Accepted(journal, m) && Agree(journal, t)
    requires WritesRight(journal, m, |m.lines|, writes)
    ensures Row(Overlay(t.stock, writes.stock), (i, l))
         == StockSum(Followed(journal, m, |m.lines|, i), i, l)
  {
    WritesInRange(journal, m, |m.lines|, writes);
    OverlayRow(t.stock, writes.stock);
    OtherKeysKeep(journal, m, i);
    assert (i, l) in writes.stock <==> i in Items(m.lines[..|m.lines|]) && (m.source == Some(l) || m.destination == Some(l));
  }

  lemma CommittedCustody(journal: seq<Movement>, m: Movement, t: Tables, writes: Tables, i: Id, u: Id)
    requires AcceptedJournal(journal) && Accepted(journal, m) && Agree(journal, t)
    requires WritesRight(journal, m, |m.lines|, writes)
    ensures Row(Overlay(t.custody, writes.custody), (u, i))
         == CustodySum(Followed(journal, m, |m.lines|, i), i, u)
  {
    WritesInRange(journal, m, |m.lines|, writes);
    OverlayRow(t.custody, writes.custody);
    OtherKeysKeep(journal, m, i);
    assert (u, i) in writes.custody <==> i in Items(m.lines[..|m.lines|]) && m.custody == Some(u);
  }

  /** The uncommitted rows over the committed ones are the tables of the extended journal. */
  lemma CommittedTables(journal: seq<Movement>, m: Movement, t: Tables, writes: Tables)
    requires AcceptedJournal(journal) && Accepted(journal, m) && Agree(journal, t)
    requires WritesRight(journal, m, |m.lines|, writes)
    ensures Agree(journal + [m], View(t, writes))
  {
    WritesInRange(journal, m, |m.lines|, writes);
    OverlayRow(t.stock, writes.stock);
    OverlayRow(t.custody, writes.custody);
    var v := View(t, writes);
    forall i, l
      ensures Row(v.stock, (i, l)) == StockSum(Followed(journal, m, |m.lines|, i), i, l)
    {
      CommittedStock(journal, m, t, writes, i, l);
    }
    forall i, u
      ensures Row(v.custody, (u, i)) == CustodySum(Followed(journal, m, |m.lines|, i), i, u)
    {
      CommittedCustody(journal, m, t, writes, i, u);
    }
    RefreshedAgree(journal, m, v);
  }

  lemma CommitKeeps(w: World, t: Id)
    requires Inv(w) && t in w.live
    ensures Inv(CommitIn(w, t))
  {
    var tx := w.live[t];
    if tx.phase.Lined? && tx.phase.refreshed == |tx.draft.lines| {
      var w1 := CommitIn(w, t);
      forall u | u in w1.live ensures TxOk(w1.journal, w1.nextSeq, w1.live[u]) {
        TxStable(w.journal, w.nextSeq, tx, w.live[u]);
      }
      CommittedGrows(w, tx);
      assert CommittedOk(w1);
    }
  }

  lemma CommittedGrows(w: World, tx: Tx)
    requires CommittedOk(w) && TxOk(w.journal, w.nextSeq, tx) && tx.phase.Lined? && tx.phase.refreshed == |tx.draft.lines|
    ensures CommittedOk(w.(journal := w.journal + [tx.draft], tables := View(w.tables, tx.phase.writes)))
  {
    var m, j := tx.draft, w.journal + [tx.draft];
    var t1 := View(w.tables, tx.phase.writes);
    AcceptedSnoc(w.journal, m);
    CommittedTables(w.journal, m, w.tables, tx.phase.writes);
    OrderedSnoc(w.journal, m);
    AgreeInRange(j, t1);
    PrefixesSnoc(w.journal, m);
  }

  lemma AgreeInRange(journal: seq<Movement>, t: Tables)
    requires Agree(journal, t)
    ensures SumsInRange(journal)
  {
    forall item, location ensures InRange(StockSum(journal, item, location)) {
      assert Row(t.stock, (item, location)) == StockSum(journal, item, location);
    }
    forall item, user ensures InRange(CustodySum(journal, item, user)) {
      assert Row(t.custody, (user, item)) == CustodySum(journal, item, user);
    }
  }

  lemma OrderedSnoc(journal: seq<Movement>, m: Movement)
    requires Ordered(journal) && Next(journal, m)
    ensures Ordered(journal + [m])
  {
    var j := journal + [m];
    forall k | 0 <= k < |j| ensures Next(j[..k], j[k]) {
      assert j[..k] == if k < |journal| then journal[..k] else journal;
    }
  }

  lemma PrefixesSnoc(journal: seq<Movement>, m: Movement)
    requires PrefixesInRange(journal) && SumsInRange(journal + [m])
    ensures PrefixesInRange(journal + [m])
  {
    var j := journal + [m];
    forall k | 0 <= k <= |j| ensures SumsInRange(j[..k]) {
      assert j[..k] == if k <= |journal| then journal[..k] else j;
    }
  }

  lemma EndKeeps(w: World, t: Id)
    requires Inv(w)
    ensures Inv(End(w, t))
  {
  }

  lemma AcquireKeeps(w: World, t: Id, lock: Lock)
    requires Inv(w) && t in w.live
    ensures Inv(AcquireIn(w, t, lock))
  {
    var tx := w.live[t];
    if forall u :: u in w.live && u != t ==> lock !in w.live[u].held {
      OnlyOneChanges(w, t, tx.(held := tx.held + {lock}));
    }
  }

  /** The statements that only move their own transaction. */
  lemma OwnStepMoves(w: World, s: Step) returns (tx1: Tx)
    requires Ready(w, s.tx)
    requires s.CheckReplay? || s.ReadStock? || s.ReadCustody? || s.InsertLines? || s.RefreshNext?
    ensures Moves(w, s.tx, Exec(w, s), tx1)
  {
    match s {
      case CheckReplay(t) => tx1 := CheckReplayMoves(w, t);
      case ReadStock(t) => tx1 := ReadStockMoves(w, t);
      case ReadCustody(t) => tx1 := ReadCustodyMoves(w, t);
      case InsertLines(t) => tx1 := InsertLinesMoves(w, t);
      case RefreshNext(t, ok) => tx1 := RefreshNextMoves(w, t, ok);
    }
  }

  lemma StepKeeps(w: World, s: Step)
    requires Inv(w)
    ensures Inv(Exec(w, s))
  {
    if s.tx in w.live {
      match s {
        case Begin(_, _) =>
        case Acquire(_, lock) => AcquireKeeps(w, s.tx, lock);
        case InsertHeader(_) => InsertHeaderKeeps(w, s.tx);
        case Commit(_) => CommitKeeps(w, s.tx);
        case Abort(_) => EndKeeps(w, s.tx);
        case _ =>
          var tx1 := OwnStepMoves(w, s);
          MovesKeep(w, s.tx, Exec(w, s), tx1);
      }
    } else if s.Begin? && Valid(s.draft) && FreshId(w, s.draft.id) {
      OnlyOneChanges(w, s.tx, Tx(s.draft, {}, Starting));
    }
  }

  lemma {:induction false} RunKeeps(steps: seq<Step>)
    ensures Inv(Run(steps))
  {
    if |steps| != 0 {
      RunKeeps(steps[..|steps| - 1]);
      StepKeeps(Run(steps[..|steps| - 1]), steps[|steps| - 1]);
    }
  }
}
