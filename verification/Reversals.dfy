/** What the database accepts into the journal (CHECK constraints, unique indexes, row triggers and the
    deferred line-count trigger), and why an accepted reversal cancels its original exactly. */
module Reversals {
  import opened Journal

  /** ck_movements_positions_distinct and ck_movements_operation_positions */
  predicate PositionsAllowed(m: Movement) {
    && (m.source.Some? && m.destination.Some? ==> m.source != m.destination)
    && match m.kind
       case Receipt | Return => m.source.None? && m.destination.Some?
       case Issue | WriteOff => m.source.Some? && m.destination.None?
       case Transfer => m.source.Some? && m.destination.Some?
       case Correction | Reversal => m.source.Some? || m.destination.Some?
  }

  predicate Concerns(position: Option<Id>, o: Movement) {
    position.Some? && (position == o.source || position == o.destination)
  }

  /** validate_warehouse_correction_header */
  predicate HeaderAccepted(journal: seq<Movement>, m: Movement) {
    Linked(m.kind) ==>
      && m.original.Some?
      && TargetOk(journal, m)
      && var o := Find(journal, m.original.value).value;
         if m.kind.Reversal? then
           m.lineCount == o.lineCount && m.source == o.destination && m.destination == o.source
         else
           Concerns(m.source, o) || Concerns(m.destination, o)
  }

  predicate Matched(line: LineRow, original: seq<LineRow>, exact: bool) {
    exists k :: 0 <= k < |original| && original[k].item == line.item
             && (exact ==> original[k].quantity == line.quantity)
  }

  /** validate_warehouse_correction_line */
  predicate LineAccepted(journal: seq<Movement>, m: Movement, line: LineRow) {
    Linked(m.kind) ==>
      && m.original.Some?
      && Find(journal, m.original.value).Some?
      && Matched(line, Find(journal, m.original.value).value.lines, m.kind.Reversal?)
  }

  /** validate_movement_custody, as far as it concerns the header and its link */
  predicate CustodyAccepted(journal: seq<Movement>, m: Movement) {
    && (m.custody.Some? ==> m.kind.Issue? || m.kind.Return? || m.kind.Reversal?)
    && (Linked(m.kind) && m.original.Some? && Find(journal, m.original.value).Some? ==>
          var o := Find(journal, m.original.value).value;
          if m.kind.Correction? then o.custody.None?
          else m.custody == o.custody && (m.custody.Some? ==> o.kind.Issue? || o.kind.Return?))
  }

  /** validate_warehouse_movement_line_count, with the unique line numbers it relies on */
  predicate LineCountSealed(m: Movement) {
    && |m.lines| == m.lineCount
    && 1 <= m.lineCount <= 500
    && (forall k :: 0 <= k < |m.lines| ==> 1 <= m.lines[k].lineNo <= m.lineCount)
    && (forall i, k :: 0 <= i < k < |m.lines| ==> m.lines[i].lineNo != m.lines[k].lineNo)
  }

  /** ux_movements_original_reversal */
  predicate NotReversedTwice(journal: seq<Movement>, m: Movement) {
    m.kind.Reversal? ==>
      forall k :: 0 <= k < |journal| && journal[k].kind.Reversal? ==> journal[k].original != m.original
  }

  predicate Accepted(journal: seq<Movement>, m: Movement) {
    && (forall k :: 0 <= k < |journal| ==> journal[k].id != m.id)
    && Linked(m.kind) == m.original.Some?
    && PositionsAllowed(m)
    && HeaderAccepted(journal, m)
    && CustodyAccepted(journal, m)
    && NotReversedTwice(journal, m)
    && DistinctItems(m.lines)
    && (forall k :: 0 <= k < |m.lines| ==> m.lines[k].quantity > 0 && LineAccepted(journal, m, m.lines[k]))
    && LineCountSealed(m)
  }

  /** Every row was accepted against the rows before it. */
  predicate AcceptedJournal(journal: seq<Movement>) {
    forall k :: 0 <= k < |journal| ==> Accepted(journal[..k], journal[k])
  }

  lemma AcceptedIsWellLinked(journal: seq<Movement>)
    requires AcceptedJournal(journal)
    ensures WellLinked(journal)
  {
    forall i, k | 0 <= i < k < |journal|
      ensures journal[i].id != journal[k].id
      ensures journal[i].kind.Reversal? && journal[k].kind.Reversal? ==> journal[i].original != journal[k].original
    {
      assert Accepted(journal[..k], journal[k]);
      assert journal[..k][i] == journal[i];
    }
  }

  lemma AcceptedSnoc(journal: seq<Movement>, m: Movement)
    requires AcceptedJournal(journal) && Accepted(journal, m)
    ensures AcceptedJournal(journal + [m])
  {
    forall k | 0 <= k < |journal + [m]| ensures Accepted((journal + [m])[..k], (journal + [m])[k]) {
      if k == |journal| {
        assert (journal + [m])[..k] == journal;
      } else {
        assert (journal + [m])[..k] == journal[..k];
      }
    }
  }

  lemma AcceptedPrefix(journal: seq<Movement>, n: nat)
    requires AcceptedJournal(journal) && n <= |journal|
    ensures AcceptedJournal(journal[..n])
  {
    forall k | 0 <= k < n ensures Accepted(journal[..n][..k], journal[..n][k]) {
      assert journal[..n][..k] == journal[..k];
    }
  }

  // ----- An accepted reversal mirrors its original -----

  function Items(lines: seq<LineRow>): set<Id> {
    set k | 0 <= k < |lines| :: lines[k].item
  }

  function Pairs(lines: seq<LineRow>): set<(Id, int)> {
    set k | 0 <= k < |lines| :: (lines[k].item, lines[k].quantity)
  }

  lemma {:induction false} ItemsCount(lines: seq<LineRow>)
    requires DistinctItems(lines)
    ensures |Items(lines)| == |lines|
  {
    if |lines| == 0 {
      assert Items(lines) == {};
    } else {
      var front := lines[..|lines| - 1];
      var last := lines[|lines| - 1].item;
      ItemsCount(front);
      forall item ensures item in Items(lines) <==> item in Items(front) + {last} {
        if item in Items(lines) {
          var k :| 0 <= k < |lines| && lines[k].item == item;
          assert k < |front| ==> front[k].item == item;
        }
        if item in Items(front) {
          var k :| 0 <= k < |front| && front[k].item == item;
          assert lines[k].item == item;
        }
        assert lines[|lines| - 1].item in Items(lines);
      }
      assert Items(lines) == Items(front) + {last};
      assert last !in Items(front);
    }
  }

  lemma SubsetOfEqualSize<T>(a: set<T>, b: set<T>)
    requires a <= b && |a| == |b|
    ensures a == b
  {
    assert b == a + (b - a);
  }

  /** The pigeonhole step: equally many lines, one per item, each found in the original. */
  lemma LinesMirror(lines: seq<LineRow>, original: seq<LineRow>)
    requires DistinctItems(lines) && DistinctItems(original) && |lines| == |original|
    requires forall k :: 0 <= k < |lines| ==> Matched(lines[k], original, true)
    ensures Pairs(lines) == Pairs(original)
    ensures forall item :: LineQuantity(lines, item) == LineQuantity(original, item)
  {
    ItemsCount(lines);
    ItemsCount(original);
    forall item | item in Items(lines) ensures item in Items(original) {
      var k :| 0 <= k < |lines| && lines[k].item == item;
      assert Matched(lines[k], original, true);
    }
    SubsetOfEqualSize(Items(lines), Items(original));
    forall item ensures LineQuantity(lines, item) == LineQuantity(original, item) {
      if item in Items(lines) {
        var k :| 0 <= k < |lines| && lines[k].item == item;
        assert Matched(lines[k], original, true);
        var i :| 0 <= i < |original| && original[i].item == item && original[i].quantity == lines[k].quantity;
        LineQuantityAt(lines, k);
        LineQuantityAt(original, i);
      } else {
        UntouchedQuantity(lines, item);
        forall i | 0 <= i < |original| ensures original[i].item != item {
          assert original[i].item in Items(original);
        }
        UntouchedQuantity(original, item);
      }
    }
    forall p | p in Pairs(original) ensures p in Pairs(lines) {
      var i :| 0 <= i < |original| && (original[i].item, original[i].quantity) == p;
      assert p.0 in Items(lines) by { assert original[i].item in Items(original); }
      var k :| 0 <= k < |lines| && lines[k].item == p.0;
      LineQuantityAt(lines, k);
      LineQuantityAt(original, i);
    }
  }

  /** Any reversal the database accepts carries exactly the original's items and quantities,
      between the same positions the other way round, for the same custody user. */
  lemma ReversalMirrors(journal: seq<Movement>, m: Movement)
    requires AcceptedJournal(journal) && Accepted(journal, m) && m.kind.Reversal?
    ensures Find(journal, m.original.value).Some?
    ensures var o := Find(journal, m.original.value).value;
            && Pairs(m.lines) == Pairs(o.lines) && |m.lines| == |o.lines|
            && m.source == o.destination && m.destination == o.source && m.custody == o.custody
            && (forall item :: Quantity(m, item) == Quantity(o, item))
  {
    FindSound(journal, m.original.value);
    var o := Find(journal, m.original.value).value;
    var i :| 0 <= i < |journal| && journal[i] == o;
    assert Accepted(journal[..i], o);
    forall k | 0 <= k < |m.lines| ensures Matched(m.lines[k], o.lines, true) {
      assert LineAccepted(journal, m, m.lines[k]);
    }
    LinesMirror(m.lines, o.lines);
  }

  // ----- Deleting a movement with its reversal -----

  lemma RemoveAtKeeps(journal: seq<Movement>, k: nat)
    requires UniqueIds(journal) && k < |journal|
    ensures UniqueIds(RemoveAt(journal, k))
    ensures forall m :: m in RemoveAt(journal, k) <==> m in journal && m.id != journal[k].id
  {
    var r := RemoveAt(journal, k);
    assert forall x :: 0 <= x < |r| ==> r[x] == journal[if x < k then x else x + 1];
    forall m | m in journal && m.id != journal[k].id ensures m in r {
      var y :| 0 <= y < |journal| && journal[y] == m;
      assert r[if y < k then y else y - 1] == m;
    }
  }

  /** The journal without the rows at i and k. */
  function Remove(journal: seq<Movement>, i: nat, k: nat): seq<Movement>
    requires i < k < |journal|
  {
    RemoveAt(RemoveAt(journal, k), i)
  }

  lemma FindMember(journal: seq<Movement>, m: Movement)
    requires UniqueIds(journal) && m in journal
    ensures Find(journal, m.id) == Some(m)
  {
    var k :| 0 <= k < |journal| && journal[k] == m;
    FindFirst(journal, k);
  }

  /** The target of a reversal is a journal row and is not itself a reversal. */
  lemma TargetOf(journal: seq<Movement>, m: Movement) returns (o: Movement)
    requires WellLinked(journal) && m in journal && m.kind.Reversal?
    ensures m.original == Some(o.id) && o in journal && !o.kind.Reversal? && Find(journal, o.id) == Some(o)
  {
    var x :| 0 <= x < |journal| && journal[x] == m;
    assert TargetOk(journal[..x], m);
    FindSound(journal[..x], m.original.value);
    o := Find(journal[..x], m.original.value).value;
    FindMember(journal, o);
  }

  /** Other movements keep their custody effect when the pair goes: only a reversal's effect looks at
      its original, and no other reversal can point at either row of the pair. */
  lemma OthersKeepCustody(journal: seq<Movement>, rest: seq<Movement>, pair: (Movement, Movement), m: Movement,
                          item: Id, user: Id)
    requires WellLinked(journal) && UniqueIds(rest)
    requires pair.1 in journal && pair.1.kind.Reversal? && pair.1.original == Some(pair.0.id)
    requires forall x :: x in rest <==> x in journal && x.id != pair.0.id && x.id != pair.1.id
    requires m in rest
    ensures CustodyDelta(rest, m, item, user) == CustodyDelta(journal, m, item, user)
  {
    if m.kind.Reversal? {
      var o := TargetOf(journal, m);
      OneReversalEach(journal, m, pair.1);
      FindMember(journal, pair.1);
      FindMember(rest, o);
    }
  }

  lemma OneReversalEach(journal: seq<Movement>, a: Movement, b: Movement)
    requires WellLinked(journal) && a in journal && b in journal && a.id != b.id
    requires a.kind.Reversal? && b.kind.Reversal?
    ensures a.original != b.original
  {
    var x :| 0 <= x < |journal| && journal[x] == a;
    var y :| 0 <= y < |journal| && journal[y] == b;
    assert x < y || y < x;
  }

  lemma PairEffects(journal: seq<Movement>, i: nat, k: nat, item: Id)
    requires AcceptedJournal(journal) && i < k < |journal|
    requires journal[k].kind.Reversal? && journal[k].original == Some(journal[i].id)
    ensures forall location :: StockDelta(journal[i], item, location) + StockDelta(journal[k], item, location) == 0
    ensures forall user :: CustodyDelta(journal, journal[i], item, user) + CustodyDelta(journal, journal[k], item, user) == 0
  {
    AcceptedIsWellLinked(journal);
    AcceptedPrefix(journal, k);
    assert journal[..k][i] == journal[i];
    FindFirst(journal[..k], i);
    ReversalMirrors(journal[..k], journal[k]);
    FindFirst(journal, i);
    forall user
      ensures CustodyDelta(journal, journal[i], item, user) + CustodyDelta(journal, journal[k], item, user) == 0
    {
      CancelledCustody(journal, journal[i], journal[k], item, user);
    }
  }

  lemma SumRemovePair(journal: seq<Movement>, i: nat, k: nat, effect: Movement -> int)
    requires i < k < |journal| && effect(journal[i]) + effect(journal[k]) == 0
    ensures Sum(Remove(journal, i, k), effect) == Sum(journal, effect)
  {
    SumRemoveAt(journal, k, effect);
    SumRemoveAt(RemoveAt(journal, k), i, effect);
  }

  /** Deleting an accepted movement together with its reversal leaves every stock and every custody
      sum of the journal unchanged. */
  lemma PairCancels(journal: seq<Movement>, i: nat, k: nat, item: Id)
    requires AcceptedJournal(journal) && i < k < |journal|
    requires journal[k].kind.Reversal? && journal[k].original == Some(journal[i].id)
    ensures forall location :: StockSum(Remove(journal, i, k), item, location) == StockSum(journal, item, location)
    ensures forall user :: CustodySum(Remove(journal, i, k), item, user) == CustodySum(journal, item, user)
  {
    PairEffects(journal, i, k, item);
    forall location
      ensures StockSum(Remove(journal, i, k), item, location) == StockSum(journal, item, location)
    {
      SumRemovePair(journal, i, k, StockEffect(item, location));
    }
    forall user
      ensures CustodySum(Remove(journal, i, k), item, user) == CustodySum(journal, item, user)
    {
      SumRemovePair(journal, i, k, CustodyEffect(journal, item, user));
      CustodyWithoutPair(journal, i, k, item, user);
    }
  }

  lemma CustodyWithoutPair(journal: seq<Movement>, i: nat, k: nat, item: Id, user: Id)
    requires AcceptedJournal(journal) && i < k < |journal|
    requires journal[k].kind.Reversal? && journal[k].original == Some(journal[i].id)
    ensures var rest := Remove(journal, i, k);
            Sum(rest, CustodyEffect(rest, item, user)) == Sum(rest, CustodyEffect(journal, item, user))
  {
    AcceptedIsWellLinked(journal);
    RemoveAtKeeps(journal, k);
    RemoveAtKeeps(RemoveAt(journal, k), i);
    var rest := Remove(journal, i, k);
    forall x | 0 <= x < |rest|
      ensures CustodyEffect(rest, item, user)(rest[x]) == CustodyEffect(journal, item, user)(rest[x])
    {
      OthersKeepCustody(journal, rest, (journal[i], journal[k]), rest[x], item, user);
    }
    SumCongruent(rest, CustodyEffect(rest, item, user), CustodyEffect(journal, item, user));
  }

  lemma CancelledCustody(journal: seq<Movement>, o: Movement, m: Movement, item: Id, user: Id)
    requires m.kind.Reversal? && m.original == Some(o.id) && Find(journal, o.id) == Some(o)
    requires !o.kind.Reversal? && m.custody == o.custody && Quantity(m, item) == Quantity(o, item)
    requires m.custody.Some? ==> o.kind.Issue? || o.kind.Return?
    ensures CustodyDelta(journal, o, item, user) + CustodyDelta(journal, m, item, user) == 0
  {
  }
}
