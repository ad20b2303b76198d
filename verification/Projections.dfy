/** The stock and custody tables kept beside the journal: the row checks of the service, the projection
    writer that re-derives rows from the journal, and the drift query. */
module Projections {
  import opened Journal
  import opened Reversals

  /** stock_balances by (item, location) and user_item_custody_balances by (user, item). */
  datatype Tables = Tables(stock: map<(Id, Id), int>, custody: map<(Id, Id), int>)

  function Row(table: map<(Id, Id), int>, key: (Id, Id)): int {
    if key in table then table[key] else 0
  }

  predicate PositiveRows(table: map<(Id, Id), int>) {
    forall key :: key in table ==> 1 <= table[key] <= MAX_QUANTITY
  }

  /** The tables are exactly the journal's sums: a row where and only where the sum is nonzero. */
  ghost predicate Agree(journal: seq<Movement>, t: Tables) {
    && PositiveRows(t.stock) && PositiveRows(t.custody)
    && (forall item, location :: Row(t.stock, (item, location)) == StockSum(journal, item, location))
    && (forall item, user :: Row(t.custody, (user, item)) == CustodySum(journal, item, user))
  }

  // ----- The service's incremental checks -----

  /** _custody_delta */
  function ServiceCustodySign(kind: MovementType, original: Option<Movement>): int {
    if kind == Issue then 1
    else if kind == Return then -1
    else if kind != Reversal || original.None? then 0
    else if original.value.kind == Issue then -1
    else if original.value.kind == Return then 1
    else 0
  }

  datatype LineError = QuantityNotPositive | InsufficientStock | InsufficientCustody | QuantityOverflow

  function CheckBalance(quantity: int, short: LineError): Option<LineError> {
    if quantity < 0 then Some(short)
    else if quantity > MAX_QUANTITY then Some(QuantityOverflow)
    else None
  }

  /** One round of the line loop, against the balances read beforehand. */
  function CheckLine(seen: Tables, m: Movement, sign: int, line: LineRow): Option<LineError> {
    if line.quantity <= 0 then Some(QuantityNotPositive)
    else
      var source := if m.source.None? then None
                    else CheckBalance(Row(seen.stock, (line.item, m.source.value)) - line.quantity, InsufficientStock);
      if source.Some? then source
      else
        var destination := if m.destination.None? then None
                           else CheckBalance(Row(seen.stock, (line.item, m.destination.value)) + line.quantity,
                                             InsufficientStock);
        if destination.Some? then destination
        else if m.custody.None? || sign * line.quantity == 0 then None
        else CheckBalance(Row(seen.custody, (m.custody.value, line.item)) + sign * line.quantity, InsufficientCustody)
  }

  /** The first error of the loop over the first lines. */
  function CheckLines(seen: Tables, m: Movement, sign: int, lines: seq<LineRow>): Option<LineError> {
    if |lines| == 0 then None
    else
      var earlier := CheckLines(seen, m, sign, lines[..|lines| - 1]);
      if earlier.Some? then earlier else CheckLine(seen, m, sign, lines[|lines| - 1])
  }

  lemma {:induction false} CheckedEach(seen: Tables, m: Movement, sign: int, lines: seq<LineRow>, k: nat)
    requires k < |lines| && CheckLines(seen, m, sign, lines).None?
    ensures CheckLine(seen, m, sign, lines[k]).None?
  {
    if k < |lines| - 1 {
      CheckedEach(seen, m, sign, lines[..|lines| - 1], k);
    }
  }

  /** The service's sign and the SQL sign coincide for every accepted movement. */
  lemma SignsAgree(journal: seq<Movement>, m: Movement)
    requires Accepted(journal, m)
    ensures ServiceCustodySign(m.kind, if m.original.Some? then Find(journal, m.original.value) else None)
         == SqlCustodySign(m.kind, OriginalKind(journal + [m], m))
  {
    if m.original.Some? {
      FindExtends(journal, [m], m.original.value);
    }
  }

  // ----- The projection writer -----

  datatype Refreshed = Ok(tables: Tables) | MissingMovement | MissingLine | OutOfRange | HolderIneligible

  function Put(table: map<(Id, Id), int>, key: (Id, Id), quantity: int): map<(Id, Id), int> {
    if quantity == 0 then table - {key} else table[key := quantity]
  }

  /** refresh_warehouse_projection, for the movement and item named by the caller; `eligible` is the
      holder check of the custody row trigger. */
  function Refresh(journal: seq<Movement>, t: Tables, movement: Id, item: Id, eligible: Id -> bool): Refreshed {
    var found := Find(journal, movement);
    if found.None? then MissingMovement
    else if !Touches(found.value, item) then MissingLine
    else
      var m := found.value;
      if m.source.Some? && !InRange(StockSum(journal, item, m.source.value)) then OutOfRange
      else
        var t1 := if m.source.None? then t
                  else t.(stock := Put(t.stock, (item, m.source.value), StockSum(journal, item, m.source.value)));
        if m.destination.Some? && m.destination != m.source
           && !InRange(StockSum(journal, item, m.destination.value)) then OutOfRange
        else
          var t2 := if m.destination.None? || m.destination == m.source then t1
                    else t1.(stock := Put(t1.stock, (item, m.destination.value),
                                          StockSum(journal, item, m.destination.value)));
          if m.custody.None? then Ok(t2)
          else
            var held := CustodySum(journal, item, m.custody.value);
            if !InRange(held) then OutOfRange
            else if held != 0 && !eligible(m.custody.value) then HolderIneligible
            else Ok(t2.(custody := Put(t2.custody, (m.custody.value, item), held)))
  }

  /** The calls the service makes, one per line in order. */
  function RefreshAll(journal: seq<Movement>, t: Tables, movement: Id, lines: seq<LineRow>, eligible: Id -> bool): Refreshed {
    if |lines| == 0 then Ok(t)
    else
      var earlier := RefreshAll(journal, t, movement, lines[..|lines| - 1], eligible);
      if earlier.Ok? then Refresh(journal, earlier.tables, movement, lines[|lines| - 1].item, eligible) else earlier
  }

  // ----- The incremental checks refine the re-derivation -----

  /** What the service read for the movement's own keys is what the journal says. */
  ghost predicate SeenRight(journal: seq<Movement>, m: Movement, seen: Tables) {
    forall k :: 0 <= k < |m.lines| ==>
      var item := m.lines[k].item;
      && (m.source.Some? ==> Row(seen.stock, (item, m.source.value)) == StockSum(journal, item, m.source.value))
      && (m.destination.Some? ==> Row(seen.stock, (item, m.destination.value)) == StockSum(journal, item, m.destination.value))
      && (m.custody.Some? ==> Row(seen.custody, (m.custody.value, item)) == CustodySum(journal, item, m.custody.value))
  }

  /** The balances after the movement, at every key one of its lines names, are in range. */
  lemma CheckedLineInRange(journal: seq<Movement>, m: Movement, seen: Tables, sign: int, k: nat)
    requires AcceptedJournal(journal) && Accepted(journal, m) && SeenRight(journal, m, seen)
    requires sign == ServiceCustodySign(m.kind, if m.original.Some? then Find(journal, m.original.value) else None)
    requires k < |m.lines| && CheckLines(seen, m, sign, m.lines).None?
    ensures var item := m.lines[k].item; var j := journal + [m];
            && (m.source.Some? ==> InRange(StockSum(j, item, m.source.value)))
            && (m.destination.Some? ==> InRange(StockSum(j, item, m.destination.value)))
            && (m.custody.Some? ==> InRange(CustodySum(j, item, m.custody.value)))
  {
    var item := m.lines[k].item;
    CheckedEach(seen, m, sign, m.lines, k);
    LineQuantityAt(m.lines, k);
    SignsAgree(journal, m);
    AcceptedIsWellLinked(journal);
    if m.source.Some? { StockSnoc(journal, m, item, m.source.value); }
    if m.destination.Some? { StockSnoc(journal, m, item, m.destination.value); }
    if m.custody.Some? {
      CustodySnoc(journal, m, item, m.custody.value);
      CustodySignNonzero(journal, m);
    }
  }

  lemma CustodySignNonzero(journal: seq<Movement>, m: Movement)
    requires Accepted(journal, m) && m.custody.Some?
    ensures ServiceCustodySign(m.kind, if m.original.Some? then Find(journal, m.original.value) else None) != 0
  {
  }

  /** After the first n refresh calls, the rows of those n items follow the extended journal and all
      other rows still follow the old one. */
  ghost predicate AgreeUpTo(journal: seq<Movement>, m: Movement, t: Tables, n: nat)
    requires n <= |m.lines|
  {
    && PositiveRows(t.stock) && PositiveRows(t.custody)
    && (forall item, location :: Row(t.stock, (item, location)) == StockSum(Followed(journal, m, n, item), item, location))
    && (forall item, user :: Row(t.custody, (user, item)) == CustodySum(Followed(journal, m, n, item), item, user))
  }

  /** The journal whose sums the rows of an item show once the first n lines are refreshed. */
  function Followed(journal: seq<Movement>, m: Movement, n: nat, item: Id): seq<Movement>
    requires n <= |m.lines|
  {
    if item in Items(m.lines[..n]) then journal + [m] else journal
  }

  /** A holder check that passes for whoever would hold something after the movement. */
  ghost predicate HoldersEligible(journal: seq<Movement>, m: Movement, eligible: Id -> bool) {
    m.custody.Some? ==>
      forall k :: 0 <= k < |m.lines| && CustodySum(journal + [m], m.lines[k].item, m.custody.value) != 0
                  ==> eligible(m.custody.value)
  }

  lemma ItemsGrow(lines: seq<LineRow>, n: nat)
    requires n < |lines|
    ensures Items(lines[..n + 1]) == Items(lines[..n]) + {lines[n].item}
  {
    forall item ensures item in Items(lines[..n + 1]) <==> item in Items(lines[..n]) + {lines[n].item} {
      if item in Items(lines[..n]) {
        var k :| 0 <= k < n && lines[..n][k].item == item;
        assert lines[..n + 1][k].item == item;
      }
      if item in Items(lines[..n + 1]) {
        var k :| 0 <= k < n + 1 && lines[..n + 1][k].item == item;
        assert k < n ==> lines[..n][k].item == item;
      }
      assert lines[..n + 1][n] == lines[n];
    }
  }

  /** A key the movement does not name keeps its sum. */
  lemma OtherKeysKeep(journal: seq<Movement>, m: Movement, item: Id)
    requires AcceptedJournal(journal) && Accepted(journal, m)
    ensures forall location :: m.source != Some(location) && m.destination != Some(location) ==>
              StockSum(journal + [m], item, location) == StockSum(journal, item, location)
    ensures forall user :: m.custody != Some(user) ==>
              CustodySum(journal + [m], item, user) == CustodySum(journal, item, user)
  {
    AcceptedIsWellLinked(journal);
    forall location | m.source != Some(location) && m.destination != Some(location)
      ensures StockSum(journal + [m], item, location) == StockSum(journal, item, location)
    {
      StockSnoc(journal, m, item, location);
    }
    forall user | m.custody != Some(user)
      ensures CustodySum(journal + [m], item, user) == CustodySum(journal, item, user)
    {
      CustodySnoc(journal, m, item, user);
    }
  }

  lemma PutRow(table: map<(Id, Id), int>, key: (Id, Id), quantity: int)
    requires PositiveRows(table) && InRange(quantity)
    ensures PositiveRows(Put(table, key, quantity))
    ensures forall k :: Row(Put(table, key, quantity), k) == if k == key then quantity else Row(table, k)
  {
  }

  /** What one successful call writes, at every key. */
  lemma {:induction false} RefreshWrites(journal: seq<Movement>, t: Tables, m: Movement, item: Id, eligible: Id -> bool)
    requires Find(journal, m.id) == Some(m) && Touches(m, item)
    requires m.source.Some? ==> InRange(StockSum(journal, item, m.source.value))
    requires m.destination.Some? ==> InRange(StockSum(journal, item, m.destination.value))
    requires m.custody.Some? ==> InRange(CustodySum(journal, item, m.custody.value))
    requires m.custody.Some? && CustodySum(journal, item, m.custody.value) != 0 ==> eligible(m.custody.value)
    requires PositiveRows(t.stock) && PositiveRows(t.custody)
    ensures var r := Refresh(journal, t, m.id, item, eligible);
            && r.Ok? && PositiveRows(r.tables.stock) && PositiveRows(r.tables.custody)
            && (forall i, l :: Row(r.tables.stock, (i, l)) ==
                  if i == item && (m.source == Some(l) || m.destination == Some(l)) then StockSum(journal, item, l)
                  else Row(t.stock, (i, l)))
            && (forall i, u :: Row(r.tables.custody, (u, i)) ==
                  if i == item && m.custody == Some(u) then CustodySum(journal, item, u)
                  else Row(t.custody, (u, i)))
  {
    var t1 := t;
    if m.source.Some? {
      PutRow(t.stock, (item, m.source.value), StockSum(journal, item, m.source.value));
      t1 := t.(stock := Put(t.stock, (item, m.source.value), StockSum(journal, item, m.source.value)));
    }
    if m.destination.Some? {
      PutRow(t1.stock, (item, m.destination.value), StockSum(journal, item, m.destination.value));
    }
    if m.custody.Some? {
      PutRow(t.custody, (m.custody.value, item), CustodySum(journal, item, m.custody.value));
    }
  }

  /** One refresh call in the middle of the run succeeds and advances the frontier by one line. */
  lemma RefreshStep(journal: seq<Movement>, m: Movement, seen: Tables, t: Tables, n: nat, sign: int, eligible: Id -> bool)
    requires AcceptedJournal(journal) && Accepted(journal, m) && SeenRight(journal, m, seen)
    requires sign == ServiceCustodySign(m.kind, if m.original.Some? then Find(journal, m.original.value) else None)
    requires CheckLines(seen, m, sign, m.lines).None? && HoldersEligible(journal, m, eligible)
    requires n < |m.lines| && AgreeUpTo(journal, m, t, n)
    ensures Refresh(journal + [m], t, m.id, m.lines[n].item, eligible).Ok?
    ensures AgreeUpTo(journal, m, Refresh(journal + [m], t, m.id, m.lines[n].item, eligible).tables, n + 1)
  {
    var j, item := journal + [m], m.lines[n].item;
    FindAppended(journal, m);
    CheckedLineInRange(journal, m, seen, sign, n);
    RefreshWrites(j, t, m, item, eligible);
    FrontierMoves(journal, m, t, Refresh(j, t, m.id, item, eligible).tables, n);
  }

  lemma FindAppended(journal: seq<Movement>, m: Movement)
    requires AcceptedJournal(journal) && Accepted(journal, m)
    ensures Find(journal + [m], m.id) == Some(m)
  {
    AcceptedSnoc(journal, m);
    AcceptedIsWellLinked(journal + [m]);
    FindFirst(journal + [m], |journal|);
  }

  lemma FrontierMoves(journal: seq<Movement>, m: Movement, t: Tables, t': Tables, n: nat)
    requires AcceptedJournal(journal) && Accepted(journal, m) && n < |m.lines| && AgreeUpTo(journal, m, t, n)
    requires PositiveRows(t'.stock) && PositiveRows(t'.custody)
    requires forall i, l :: Row(t'.stock, (i, l)) ==
               if i == m.lines[n].item && (m.source == Some(l) || m.destination == Some(l))
               then StockSum(journal + [m], i, l) else Row(t.stock, (i, l))
    requires forall i, u :: Row(t'.custody, (u, i)) ==
               if i == m.lines[n].item && m.custody == Some(u) then CustodySum(journal + [m], i, u) else Row(t.custody, (u, i))
    ensures AgreeUpTo(journal, m, t', n + 1)
  {
    forall i, l ensures Row(t'.stock, (i, l)) == StockSum(Followed(journal, m, n + 1, i), i, l) {
      assert Row(t.stock, (i, l)) == StockSum(Followed(journal, m, n, i), i, l);
      FollowedMoves(journal, m, n, i);
    }
    forall i, u ensures Row(t'.custody, (u, i)) == CustodySum(Followed(journal, m, n + 1, i), i, u) {
      assert Row(t.custody, (u, i)) == CustodySum(Followed(journal, m, n, i), i, u);
      FollowedMoves(journal, m, n, i);
    }
  }

  /** Only the item refreshed moves on to the extended journal, and only the movement's keys can tell. */
  lemma FollowedMoves(journal: seq<Movement>, m: Movement, n: nat, i: Id)
    requires AcceptedJournal(journal) && Accepted(journal, m) && n < |m.lines|
    ensures i != m.lines[n].item ==> Followed(journal, m, n + 1, i) == Followed(journal, m, n, i)
    ensures i == m.lines[n].item ==> Followed(journal, m, n + 1, i) == journal + [m]
    ensures forall l :: m.source != Some(l) && m.destination != Some(l) ==>
              StockSum(Followed(journal, m, n, i), i, l) == StockSum(journal + [m], i, l)
    ensures forall u :: m.custody != Some(u) ==>
              CustodySum(Followed(journal, m, n, i), i, u) == CustodySum(journal + [m], i, u)
  {
    OtherKeysKeep(journal, m, i);
    ItemsGrow(m.lines, n);
  }

  lemma NothingRefreshed(journal: seq<Movement>, m: Movement, t: Tables)
    requires Agree(journal, t)
    ensures m.lines[..0] == [] && AgreeUpTo(journal, m, t, 0)
  {
    assert m.lines[..0] == [] && Items(m.lines[..0]) == {};
  }

  lemma RefreshAllStep(journal: seq<Movement>, t: Tables, movement: Id, lines: seq<LineRow>, n: nat, eligible: Id -> bool)
    requires n < |lines| && RefreshAll(journal, t, movement, lines[..n], eligible).Ok?
    ensures RefreshAll(journal, t, movement, lines[..n + 1], eligible)
         == Refresh(journal, RefreshAll(journal, t, movement, lines[..n], eligible).tables, movement, lines[n].item, eligible)
  {
    assert lines[..n + 1][..n] == lines[..n];
  }

  lemma RefreshAdvance(journal: seq<Movement>, m: Movement, seen: Tables, t: Tables, n: nat, sign: int, eligible: Id -> bool)
    requires AcceptedJournal(journal) && Accepted(journal, m) && SeenRight(journal, m, seen)
    requires sign == ServiceCustodySign(m.kind, if m.original.Some? then Find(journal, m.original.value) else None)
    requires CheckLines(seen, m, sign, m.lines).None? && HoldersEligible(journal, m, eligible)
    requires n < |m.lines| && RefreshAll(journal + [m], t, m.id, m.lines[..n], eligible).Ok?
    requires AgreeUpTo(journal, m, RefreshAll(journal + [m], t, m.id, m.lines[..n], eligible).tables, n)
    ensures RefreshAll(journal + [m], t, m.id, m.lines[..n + 1], eligible).Ok?
    ensures AgreeUpTo(journal, m, RefreshAll(journal + [m], t, m.id, m.lines[..n + 1], eligible).tables, n + 1)
  {
    RefreshStep(journal, m, seen, RefreshAll(journal + [m], t, m.id, m.lines[..n], eligible).tables, n, sign, eligible);
    RefreshAllStep(journal + [m], t, m.id, m.lines, n, eligible);
  }

  /** From any line on, the remaining calls succeed and leave every row following the extended journal. */
  lemma {:induction false} RefreshRun(journal: seq<Movement>, m: Movement, seen: Tables, t: Tables, n: nat, sign: int,
                                      eligible: Id -> bool)
    requires AcceptedJournal(journal) && Accepted(journal, m) && SeenRight(journal, m, seen)
    requires sign == ServiceCustodySign(m.kind, if m.original.Some? then Find(journal, m.original.value) else None)
    requires CheckLines(seen, m, sign, m.lines).None? && HoldersEligible(journal, m, eligible)
    requires n <= |m.lines| && RefreshAll(journal + [m], t, m.id, m.lines[..n], eligible).Ok?
    requires AgreeUpTo(journal, m, RefreshAll(journal + [m], t, m.id, m.lines[..n], eligible).tables, n)
    ensures RefreshAll(journal + [m], t, m.id, m.lines[..|m.lines|], eligible).Ok?
    ensures AgreeUpTo(journal, m, RefreshAll(journal + [m], t, m.id, m.lines[..|m.lines|], eligible).tables, |m.lines|)
    decreases |m.lines| - n
  {
    if n < |m.lines| {
      RefreshAdvance(journal, m, seen, t, n, sign, eligible);
      RefreshRun(journal, m, seen, t, n + 1, sign, eligible);
    }
  }

  /** With every line refreshed, the tables agree with the extended journal. */
  lemma RefreshedAgree(journal: seq<Movement>, m: Movement, t: Tables)
    requires AcceptedJournal(journal) && Accepted(journal, m) && AgreeUpTo(journal, m, t, |m.lines|)
    ensures Agree(journal + [m], t)
  {
    AcceptedIsWellLinked(journal);
    assert m.lines[..|m.lines|] == m.lines;
    forall item | item !in Items(m.lines)
      ensures forall location :: StockSum(journal + [m], item, location) == StockSum(journal, item, location)
      ensures forall user :: CustodySum(journal + [m], item, user) == CustodySum(journal, item, user)
    {
      assert forall k :: 0 <= k < |m.lines| ==> m.lines[k].item in Items(m.lines);
      UntouchedEffects(journal + [m], m, item);
      forall location ensures StockSum(journal + [m], item, location) == StockSum(journal, item, location) {
        StockSnoc(journal, m, item, location);
      }
      forall user ensures CustodySum(journal + [m], item, user) == CustodySum(journal, item, user) {
        CustodySnoc(journal, m, item, user);
      }
    }
  }

  /** If the tables agree with the journal and the line loop accepts, every refresh call succeeds and the
      tables agree with the extended journal: each row becomes old balance plus the movement's delta. */
  lemma ChecksRefineRefresh(journal: seq<Movement>, m: Movement, t: Tables, eligible: Id -> bool)
    requires AcceptedJournal(journal) && Accepted(journal, m) && Agree(journal, t)
    requires CheckLines(t, m, ServiceCustodySign(m.kind, if m.original.Some? then Find(journal, m.original.value) else None),
                        m.lines).None?
    requires HoldersEligible(journal, m, eligible)
    ensures var r := RefreshAll(journal + [m], t, m.id, m.lines, eligible);
            && r.Ok? && Agree(journal + [m], r.tables)
            && (forall item, location :: Row(r.tables.stock, (item, location))
                  == Row(t.stock, (item, location)) + StockDelta(m, item, location))
            && (forall item, user :: Row(r.tables.custody, (user, item))
                  == Row(t.custody, (user, item)) + CustodyDelta(journal + [m], m, item, user))
  {
    var sign := ServiceCustodySign(m.kind, if m.original.Some? then Find(journal, m.original.value) else None);
    NothingRefreshed(journal, m, t);
    RefreshRun(journal, m, t, t, 0, sign, eligible);
    assert m.lines[..|m.lines|] == m.lines;
    var r := RefreshAll(journal + [m], t, m.id, m.lines, eligible);
    RefreshedAgree(journal, m, r.tables);
    AcceptedIsWellLinked(journal);
    BookedDeltas(journal, m, t, r.tables);
  }

  /** Tables that agree before and after a movement differ by its deltas. */
  lemma BookedDeltas(journal: seq<Movement>, m: Movement, t: Tables, t': Tables)
    requires WellLinked(journal) && Agree(journal, t) && Agree(journal + [m], t')
    ensures forall item, location :: Row(t'.stock, (item, location))
              == Row(t.stock, (item, location)) + StockDelta(m, item, location)
    ensures forall item, user :: Row(t'.custody, (user, item))
              == Row(t.custody, (user, item)) + CustodyDelta(journal + [m], m, item, user)
  {
    forall item, location ensures Row(t'.stock, (item, location))
                               == Row(t.stock, (item, location)) + StockDelta(m, item, location)
    {
      StockSnoc(journal, m, item, location);
    }
    forall item, user ensures Row(t'.custody, (user, item))
                           == Row(t.custody, (user, item)) + CustodyDelta(journal + [m], m, item, user)
    {
      CustodySnoc(journal, m, item, user);
    }
  }
}
