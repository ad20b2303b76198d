/** The warehouse service as it runs against the tables: rows are read, checked and written statement by
    statement inside one transaction. */
module Warehouse {
  import opened Journal
  import opened Projections
  import opened Idempotency
  import opened Policy
  import opened Service

  class Warehouse {
    var journal: seq<Movement>
    var stock: map<(Id, Id), int>
    var custody: map<(Id, Id), int>
    var nextSeq: nat
    var items: map<Id, bool>
    var locations: map<Id, bool>
    var receipts: set<Id>
    var users: map<Id, Standing>

    function Snapshot(): Db
      reads this
    {
      Db(journal, Tables(stock, custody), nextSeq, items, locations, receipts, users)
    }

    /** Deletes the row for a zero balance, inserts or updates it otherwise. */
    method PutStock(item: Id, location: Id, quantity: int)
      modifies this`stock
      ensures stock == Put(old(stock), (item, location), quantity)
    {
      if quantity == 0 {
        stock := stock - {(item, location)};
      } else {
        stock := stock[(item, location) := quantity];
      }
    }

    /** refresh_warehouse_projection; after a failure the transaction is rolled back by the caller. */
    method RefreshProjection(movement: Id, item: Id) returns (ok: bool)
      modifies this`stock, this`custody
      ensures ok == Refresh(journal, old(Tables(stock, custody)), movement, item, Holders(users)).Ok?
      ensures ok ==> Tables(stock, custody) == Refresh(journal, old(Tables(stock, custody)), movement, item, Holders(users)).tables
    {
      var header := Find(journal, movement);
      if header.None? || !Touches(header.value, item) {
        return false;
      }
      var m := header.value;
      if m.source.Some? {
        var expected := StockSum(journal, item, m.source.value);
        if !InRange(expected) {
          return false;
        }
        PutStock(item, m.source.value, expected);
      }
      if m.destination.Some? && m.destination != m.source {
        var expected := StockSum(journal, item, m.destination.value);
        if !InRange(expected) {
          return false;
        }
        PutStock(item, m.destination.value, expected);
      }
      if m.custody.Some? {
        var held := CustodySum(journal, item, m.custody.value);
        if !InRange(held) {
          return false;
        }
        if held == 0 {
          custody := custody - {(m.custody.value, item)};
        } else if !Approvable(users, m.custody.value) {
          return false;
        } else {
          custody := custody[(m.custody.value, item) := held];
        }
      }
      return true;
    }

    /** The loop over the sorted lines: each balance is checked before its row is built. */
    method BuildLines(m: Movement, sign: int, lines: seq<Line>) returns (error: Option<LineError>, rows: seq<LineRow>)
      ensures error == CheckLines(Tables(stock, custody), m, sign, Rows(lines))
      ensures error.None? ==> rows == Rows(lines)
    {
      rows := [];
      error := None;
      var n := 0;
      assert Rows(lines)[..0] == [];
      while n < |lines|
        invariant 0 <= n <= |lines| && rows == Rows(lines)[..n] && error.None?
        invariant CheckLines(Tables(stock, custody), m, sign, Rows(lines)[..n]).None?
      {
        var row := LineRow(n + 1, lines[n].item, lines[n].quantity);
        assert Rows(lines)[..n + 1] == Rows(lines)[..n] + [row];
        error := CheckLine(Tables(stock, custody), m, sign, row);
        if error.Some? {
          FirstErrorWins(Tables(stock, custody), m, sign, Rows(lines), n + 1);
          return;
        }
        rows := rows + [row];
        n := n + 1;
      }
      assert Rows(lines)[..n] == Rows(lines);
    }

    method RefreshLines(movement: Id, lines: seq<LineRow>) returns (ok: bool)
      modifies this`stock, this`custody
      ensures ok == RefreshAll(journal, old(Tables(stock, custody)), movement, lines, Holders(users)).Ok?
      ensures ok ==> Tables(stock, custody) == RefreshAll(journal, old(Tables(stock, custody)), movement, lines, Holders(users)).tables
    {
      var n := 0;
      ghost var t := Tables(stock, custody);
      assert lines[..0] == [];
      while n < |lines|
        invariant 0 <= n <= |lines|
        invariant RefreshAll(journal, t, movement, lines[..n], Holders(users)) == Ok(Tables(stock, custody))
      {
        assert lines[..n + 1][..n] == lines[..n];
        ok := RefreshProjection(movement, lines[n].item);
        if !ok {
          FirstFailureWins(journal, t, movement, lines, n + 1, Holders(users));
          return;
        }
        n := n + 1;
      }
      assert lines[..n] == lines;
      return true;
    }

    /** _create_movement */
    method CreateMovement(p: Payload, who: Caller, id: Id, digest: Digest) returns (answer: Answer)
      modifies this
      ensures (Snapshot(), answer) == Submit(old(Snapshot()), p, who, id, digest)
    {
      var refusal := EarlyChecks(p, who);
      if refusal.Some? {
        return Refused(refusal.value);
      }
      var existing := FindRequest(journal, who.actor, Normalize(p.requestId));
      if existing.Some? {
        if existing.value.fingerprint != digest(Canon(p, who.custody)) {
          return Refused(PayloadConflict);
        }
        return Replayed(existing.value);
      }
      refusal := LateChecks(Snapshot(), p, who);
      if refusal.Some? {
        return Refused(refusal.value);
      }
      answer := WriteMovement(Draft(Snapshot(), p, who, id, digest), SortLines(p.lines));
    }

    /** From the header insert on; every failure rolls the tables back but keeps the drawn number. */
    method WriteMovement(m: Movement, lines: seq<Line>) returns (answer: Answer)
      requires m.lines == Rows(lines)
      modifies this
      ensures (Snapshot(), answer) == Book(old(Snapshot()), m)
    {
      var refusal := CheckHeader(Snapshot(), m);
      nextSeq := nextSeq + 1;
      if refusal.Some? {
        return Refused(refusal.value);
      }
      var error, rows := BuildLines(m, SignOf(journal, m), lines);
      if error.Some? {
        return Refused(LineRefused(error.value));
      }
      if !LinesAccepted(journal, m) {
        return Refused(LinesRejected);
      }
      var before, beforeStock, beforeCustody := journal, stock, custody;
      journal := journal + [m.(lines := rows)];
      var ok := RefreshLines(m.id, rows);
      if !ok {
        journal, stock, custody := before, beforeStock, beforeCustody;
        return Refused(ProjectionFailed);
      }
      return Created(m);
    }

    /** reverse_movement */
    method ReverseMovement(original: Id, requestId: string, actor: Id, name: string, id: Id, digest: Digest)
      returns (answer: Answer)
      modifies this
      ensures (Snapshot(), answer) == Reverse(old(Snapshot()), original, requestId, actor, name, id, digest)
    {
      var found := Find(journal, original);
      if found.None? {
        return Refused(MovementNotFound);
      }
      var o := found.value;
      answer := CreateMovement(Payload(Reversal, o.destination, o.source, Some(original), requestId, LinesOf(o.lines)),
                               Caller(actor, name, o.custody), id, digest);
    }

    /** set_location_archived */
    method SetLocationArchived(location: Id, archived: bool) returns (refusal: Option<Refusal>)
      modifies this`locations
      ensures (Snapshot(), refusal) == SetArchived(old(Snapshot()), location, archived)
    {
      if location !in locations {
        return Some(LocationNotFound);
      }
      if archived && exists row :: row in stock && row.1 == location {
        return Some(LocationNotEmpty);
      }
      locations := locations[location := !archived];
      return None;
    }
  }

  lemma {:induction false} FirstErrorWins(seen: Tables, m: Movement, sign: int, lines: seq<LineRow>, n: nat)
    requires n <= |lines| && CheckLines(seen, m, sign, lines[..n]).Some?
    ensures CheckLines(seen, m, sign, lines) == CheckLines(seen, m, sign, lines[..n])
    decreases |lines|
  {
    if n == |lines| {
      assert lines[..n] == lines;
    } else {
      assert lines[..|lines| - 1][..n] == lines[..n];
      FirstErrorWins(seen, m, sign, lines[..|lines| - 1], n);
    }
  }

  lemma {:induction false} FirstFailureWins(journal: seq<Movement>, t: Tables, movement: Id, lines: seq<LineRow>, n: nat,
                                            eligible: Id -> bool)
    requires n <= |lines| && !RefreshAll(journal, t, movement, lines[..n], eligible).Ok?
    ensures !RefreshAll(journal, t, movement, lines, eligible).Ok?
    decreases |lines|
  {
    if n == |lines| {
      assert lines[..n] == lines;
    } else {
      assert lines[..|lines| - 1][..n] == lines[..n];
      FirstFailureWins(journal, t, movement, lines[..|lines| - 1], n, eligible);
    }
  }
}
