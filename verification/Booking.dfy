/** What booking a movement means for the tables, line by line, and when its lines fit the balances. */
module Booking {
  import opened Journal
  import opened Reversals
  import opened Projections

  predicate Originated(journal: seq<Movement>, m: Movement, kind: MovementType) {
    m.original.Some? && exists i :: 0 <= i < |journal| && journal[i].id == m.original.value && journal[i].kind == kind
  }

  /** How many units one unit of a line adds to the custody of the movement's user. */
  function PerUnit(journal: seq<Movement>, m: Movement): int {
    match m.kind
    case Issue => 1
    case Return => -1
    case Reversal => if Originated(journal, m, Issue) then -1 else if Originated(journal, m, Return) then 1 else 0
    case _ => 0
  }

  /** The tables before and after a movement: every line takes its quantity from the source, adds it to the
      destination and moves it into or out of custody; nothing else changes. */
  ghost predicate Booked(journal: seq<Movement>, m: Movement, t: Tables, t': Tables) {
    && (forall k, l :: 0 <= k < |m.lines| ==> StockMoved(m, m.lines[k], t, t', l))
    && (forall k, u :: 0 <= k < |m.lines| ==> CustodyMoved(journal, m, m.lines[k], t, t', u))
    && (forall item, l :: item !in Items(m.lines) ==> Row(t'.stock, (item, l)) == Row(t.stock, (item, l)))
    && (forall item, u :: item !in Items(m.lines) ==> Row(t'.custody, (u, item)) == Row(t.custody, (u, item)))
  }

  predicate StockMoved(m: Movement, line: LineRow, t: Tables, t': Tables, location: Id) {
    Row(t'.stock, (line.item, location)) ==
      Row(t.stock, (line.item, location))
      + (if m.destination == Some(location) then line.quantity else 0)
      - (if m.source == Some(location) then line.quantity else 0)
  }

  predicate CustodyMoved(journal: seq<Movement>, m: Movement, line: LineRow, t: Tables, t': Tables, user: Id) {
    Row(t'.custody, (user, line.item)) ==
      Row(t.custody, (user, line.item)) + if m.custody == Some(user) then PerUnit(journal, m) * line.quantity else 0
  }

  /** The sign of the SQL function, of the service and this one are one. */
  lemma PerUnitIsSign(journal: seq<Movement>, m: Movement)
    requires AcceptedJournal(journal) && Accepted(journal, m)
    ensures SqlCustodySign(m.kind, OriginalKind(journal + [m], m)) == PerUnit(journal, m)
    ensures ServiceCustodySign(m.kind, if m.original.Some? then Find(journal, m.original.value) else None) == PerUnit(journal, m)
  {
    SignsAgree(journal, m);
    if m.original.Some? {
      AcceptedIsWellLinked(journal);
      OriginalFound(journal, m);
    }
  }

  lemma OriginalFound(journal: seq<Movement>, m: Movement)
    requires UniqueIds(journal) && m.original.Some? && Find(journal, m.original.value).Some?
    ensures forall kind :: Originated(journal, m, kind) <==> Find(journal, m.original.value).value.kind == kind
  {
    FindSound(journal, m.original.value);
    var o := Find(journal, m.original.value).value;
    var i :| 0 <= i < |journal| && journal[i] == o;
    assert forall k :: 0 <= k < |journal| && journal[k].id == m.original.value ==> k == i;
  }

  /** Already for a header: the service's sign is the one above, and never zero where custody is concerned. */
  lemma HeaderSign(journal: seq<Movement>, m: Movement)
    requires UniqueIds(journal) && Linked(m.kind) == m.original.Some? && HeaderAccepted(journal, m) && CustodyAccepted(journal, m)
    ensures ServiceCustodySign(m.kind, if m.original.Some? then Find(journal, m.original.value) else None) == PerUnit(journal, m)
    ensures m.custody.Some? ==> PerUnit(journal, m) == 1 || PerUnit(journal, m) == -1
  {
    if m.original.Some? {
      OriginalFound(journal, m);
    }
  }

  /** Tables that agree with the journal before and after an accepted movement show it booked. */
  lemma AgreeMeansBooked(journal: seq<Movement>, m: Movement, t: Tables, t': Tables)
    requires AcceptedJournal(journal) && Accepted(journal, m) && Agree(journal, t) && Agree(journal + [m], t')
    ensures Booked(journal, m, t, t')
  {
    AcceptedIsWellLinked(journal);
    BookedDeltas(journal, m, t, t');
    PerUnitIsSign(journal, m);
    forall k, l | 0 <= k < |m.lines| ensures StockMoved(m, m.lines[k], t, t', l) {
      LineQuantityAt(m.lines, k);
      assert Row(t'.stock, (m.lines[k].item, l)) == Row(t.stock, (m.lines[k].item, l)) + StockDelta(m, m.lines[k].item, l);
    }
    forall k, u | 0 <= k < |m.lines| ensures CustodyMoved(journal, m, m.lines[k], t, t', u) {
      LineQuantityAt(m.lines, k);
      assert Row(t'.custody, (u, m.lines[k].item))
          == Row(t.custody, (u, m.lines[k].item)) + CustodyDelta(journal + [m], m, m.lines[k].item, u);
    }
    forall item, l | item !in Items(m.lines) ensures Row(t'.stock, (item, l)) == Row(t.stock, (item, l)) {
      NotOnALine(journal, m, item);
    }
    forall item, u | item !in Items(m.lines) ensures Row(t'.custody, (u, item)) == Row(t.custody, (u, item)) {
      NotOnALine(journal, m, item);
    }
  }

  lemma NotOnALine(journal: seq<Movement>, m: Movement, item: Id)
    requires item !in Items(m.lines)
    ensures forall l :: StockDelta(m, item, l) == 0
    ensures forall u :: CustodyDelta(journal + [m], m, item, u) == 0
  {
    assert forall k :: 0 <= k < |m.lines| ==> m.lines[k].item in Items(m.lines);
    UntouchedEffects(journal + [m], m, item);
  }

  // ----- When the lines fit -----

  /** One line against the rows seen: enough at the source, room at the destination, and the custody row stays
      within range. */
  predicate LineFits(seen: Tables, source: Option<Id>, destination: Option<Id>, custody: Option<Id>, perUnit: int, item: Id,
                     quantity: int) {
    && quantity > 0
    && (source.Some? ==> Row(seen.stock, (item, source.value)) >= quantity)
    && (destination.Some? ==> Row(seen.stock, (item, destination.value)) + quantity <= MAX_QUANTITY)
    && (custody.Some? ==> InRange(Row(seen.custody, (custody.value, item)) + perUnit * quantity))
  }

  predicate LinesFit(seen: Tables, m: Movement, perUnit: int) {
    forall k :: 0 <= k < |m.lines| ==>
      LineFits(seen, m.source, m.destination, m.custody, perUnit, m.lines[k].item, m.lines[k].quantity)
  }

  predicate RowsInRange(table: map<(Id, Id), int>) {
    forall key :: key in table ==> InRange(table[key])
  }

  /** The line check accepts exactly the lines that fit. */
  lemma CheckLineIff(seen: Tables, m: Movement, sign: int, line: LineRow)
    requires RowsInRange(seen.stock) && (m.custody.Some? ==> sign == 1 || sign == -1)
    ensures CheckLine(seen, m, sign, line).None?
       <==> LineFits(seen, m.source, m.destination, m.custody, sign, line.item, line.quantity)
  {
    if m.source.Some? {
      assert InRange(Row(seen.stock, (line.item, m.source.value)));
    }
    if m.destination.Some? {
      assert InRange(Row(seen.stock, (line.item, m.destination.value)));
    }
  }

  lemma {:induction false} AllLinesPass(seen: Tables, m: Movement, sign: int, lines: seq<LineRow>)
    requires forall k :: 0 <= k < |lines| ==> CheckLine(seen, m, sign, lines[k]).None?
    ensures CheckLines(seen, m, sign, lines).None?
  {
    if |lines| != 0 {
      AllLinesPass(seen, m, sign, lines[..|lines| - 1]);
    }
  }

  /** So does the loop over all lines. */
  lemma CheckLinesIff(seen: Tables, m: Movement, sign: int)
    requires RowsInRange(seen.stock) && (m.custody.Some? ==> sign == 1 || sign == -1)
    ensures CheckLines(seen, m, sign, m.lines).None? <==> LinesFit(seen, m, sign)
  {
    forall k | 0 <= k < |m.lines|
      ensures CheckLine(seen, m, sign, m.lines[k]).None?
         <==> LineFits(seen, m.source, m.destination, m.custody, sign, m.lines[k].item, m.lines[k].quantity)
    {
      CheckLineIff(seen, m, sign, m.lines[k]);
    }
    if CheckLines(seen, m, sign, m.lines).None? {
      forall k | 0 <= k < |m.lines| ensures CheckLine(seen, m, sign, m.lines[k]).None? {
        CheckedEach(seen, m, sign, m.lines, k);
      }
    } else if LinesFit(seen, m, sign) {
      AllLinesPass(seen, m, sign, m.lines);
    }
  }
}
