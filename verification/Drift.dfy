/** The drift query: expected balances are grouped from delta rows, one per line and side, and
    compared with the tables through a full join. */
module Drift {
  import opened Journal
  import opened Projections

  datatype DeltaRow = DeltaRow(key: (Id, Id), delta: int)

  function LineRows(lines: seq<LineRow>, holder: Id, byUser: bool, sign: int): seq<DeltaRow> {
    if |lines| == 0 then []
    else
      var line := lines[|lines| - 1];
      LineRows(lines[..|lines| - 1], holder, byUser, sign)
      + [DeltaRow(if byUser then (holder, line.item) else (line.item, holder), sign * line.quantity)]
  }

  function SourceRows(journal: seq<Movement>): seq<DeltaRow> {
    if |journal| == 0 then []
    else
      var m := journal[|journal| - 1];
      SourceRows(journal[..|journal| - 1]) + if m.source.Some? then LineRows(m.lines, m.source.value, false, -1) else []
  }

  function DestinationRows(journal: seq<Movement>): seq<DeltaRow> {
    if |journal| == 0 then []
    else
      var m := journal[|journal| - 1];
      DestinationRows(journal[..|journal| - 1])
      + if m.destination.Some? then LineRows(m.lines, m.destination.value, false, 1) else []
  }

  function CustodyRows(all: seq<Movement>, journal: seq<Movement>): seq<DeltaRow> {
    if |journal| == 0 then []
    else
      var m := journal[|journal| - 1];
      CustodyRows(all, journal[..|journal| - 1])
      + if m.custody.Some?
        then LineRows(m.lines, m.custody.value, true, SqlCustodySign(m.kind, OriginalKind(all, m)))
        else []
  }

  function GroupSum(rows: seq<DeltaRow>, key: (Id, Id)): int {
    if |rows| == 0 then 0
    else GroupSum(rows[..|rows| - 1], key) + if rows[|rows| - 1].key == key then rows[|rows| - 1].delta else 0
  }

  /** GROUP BY key HAVING sum(delta) <> 0 */
  function Expected(rows: seq<DeltaRow>): map<(Id, Id), int> {
    map k | 0 <= k < |rows| && GroupSum(rows, rows[k].key) != 0 :: rows[k].key := GroupSum(rows, rows[k].key)
  }

  /** FULL JOIN ... WHERE coalesce(expected, 0) <> coalesce(actual, 0) */
  predicate Differs(expected: map<(Id, Id), int>, actual: map<(Id, Id), int>) {
    exists key :: key in expected.Keys + actual.Keys && Row(expected, key) != Row(actual, key)
  }

  predicate ProjectionDriftExists(journal: seq<Movement>, t: Tables) {
    || Differs(Expected(SourceRows(journal) + DestinationRows(journal)), t.stock)
    || Differs(Expected(CustodyRows(journal, journal)), t.custody)
  }

  lemma {:induction false} GroupSumConcat(a: seq<DeltaRow>, b: seq<DeltaRow>, key: (Id, Id))
    ensures GroupSum(a + b, key) == GroupSum(a, key) + GroupSum(b, key)
  {
    if |b| == 0 {
      assert a + b == a;
    } else {
      GroupSumConcat(a, b[..|b| - 1], key);
      assert (a + b)[..|a + b| - 1] == a + b[..|b| - 1];
    }
  }

  lemma {:induction false} GroupSumLines(lines: seq<LineRow>, holder: Id, byUser: bool, sign: int, item: Id, who: Id)
    ensures GroupSum(LineRows(lines, holder, byUser, sign), if byUser then (who, item) else (item, who))
         == if who == holder then sign * LineQuantity(lines, item) else 0
  {
    if |lines| != 0 {
      GroupSumLines(lines[..|lines| - 1], holder, byUser, sign, item, who);
    }
  }

  lemma {:induction false} GroupedStock(journal: seq<Movement>, item: Id, location: Id)
    ensures GroupSum(SourceRows(journal), (item, location)) + GroupSum(DestinationRows(journal), (item, location))
         == StockSum(journal, item, location)
  {
    if |journal| != 0 {
      var front, m := journal[..|journal| - 1], journal[|journal| - 1];
      GroupedStock(front, item, location);
      var key := (item, location);
      if m.source.Some? {
        GroupSumConcat(SourceRows(front), LineRows(m.lines, m.source.value, false, -1), key);
        GroupSumLines(m.lines, m.source.value, false, -1, item, location);
      } else {
        assert SourceRows(journal) == SourceRows(front);
      }
      if m.destination.Some? {
        GroupSumConcat(DestinationRows(front), LineRows(m.lines, m.destination.value, false, 1), key);
        GroupSumLines(m.lines, m.destination.value, false, 1, item, location);
      } else {
        assert DestinationRows(journal) == DestinationRows(front);
      }
    }
  }

  lemma {:induction false} GroupedCustody(all: seq<Movement>, journal: seq<Movement>, item: Id, user: Id)
    ensures GroupSum(CustodyRows(all, journal), (user, item)) == Sum(journal, CustodyEffect(all, item, user))
  {
    if |journal| != 0 {
      var front, m := journal[..|journal| - 1], journal[|journal| - 1];
      GroupedCustody(all, front, item, user);
      if m.custody.Some? {
        var sign := SqlCustodySign(m.kind, OriginalKind(all, m));
        GroupSumConcat(CustodyRows(all, front), LineRows(m.lines, m.custody.value, true, sign), (user, item));
        GroupSumLines(m.lines, m.custody.value, true, sign, item, user);
      } else {
        assert CustodyRows(all, journal) == CustodyRows(all, front);
      }
    }
  }

  lemma {:induction false} GroupSumElsewhere(rows: seq<DeltaRow>, key: (Id, Id))
    requires forall k :: 0 <= k < |rows| ==> rows[k].key != key
    ensures GroupSum(rows, key) == 0
  {
    if |rows| != 0 {
      GroupSumElsewhere(rows[..|rows| - 1], key);
    }
  }

  lemma ExpectedRow(rows: seq<DeltaRow>, key: (Id, Id))
    ensures Row(Expected(rows), key) == GroupSum(rows, key)
  {
    if k :| 0 <= k < |rows| && rows[k].key == key {
    } else {
      GroupSumElsewhere(rows, key);
    }
  }

  lemma DiffersExact(rows: seq<DeltaRow>, actual: map<(Id, Id), int>)
    ensures Differs(Expected(rows), actual) <==> exists key :: Row(actual, key) != GroupSum(rows, key)
  {
    forall key ensures Row(Expected(rows), key) == GroupSum(rows, key) {
      ExpectedRow(rows, key);
    }
    if key :| Row(actual, key) != GroupSum(rows, key) {
      assert key in Expected(rows).Keys + actual.Keys;
    }
  }

  /** The query reports drift exactly when some balance differs from the journal's sum. */
  lemma DriftExact(journal: seq<Movement>, t: Tables)
    ensures ProjectionDriftExists(journal, t) <==>
              || (exists item, location :: Row(t.stock, (item, location)) != StockSum(journal, item, location))
              || (exists item, user :: Row(t.custody, (user, item)) != CustodySum(journal, item, user))
  {
    var stockRows, custodyRows := SourceRows(journal) + DestinationRows(journal), CustodyRows(journal, journal);
    DiffersExact(stockRows, t.stock);
    DiffersExact(custodyRows, t.custody);
    forall item, location ensures GroupSum(stockRows, (item, location)) == StockSum(journal, item, location) {
      GroupSumConcat(SourceRows(journal), DestinationRows(journal), (item, location));
      GroupedStock(journal, item, location);
    }
    forall item, user ensures GroupSum(custodyRows, (user, item)) == CustodySum(journal, item, user) {
      GroupedCustody(journal, journal, item, user);
    }
    if key :| Row(t.stock, key) != GroupSum(stockRows, key) {
      assert Row(t.stock, (key.0, key.1)) != StockSum(journal, key.0, key.1);
    }
    if key :| Row(t.custody, key) != GroupSum(custodyRows, key) {
      assert Row(t.custody, (key.0, key.1)) != CustodySum(journal, key.1, key.0);
    }
  }
}
