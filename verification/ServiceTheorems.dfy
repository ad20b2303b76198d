/** What creating and reversing movements guarantees about the committed warehouse. */
module ServiceTheorems {
  import opened Journal
  import opened Reversals
  import opened Projections
  import opened Idempotency
  import opened Service

  predicate FreshId(db: Db, id: Id) {
    forall k :: 0 <= k < |db.journal| ==> db.journal[k].id != id
  }

  lemma ChecksPassed(db: Db, p: Payload, who: Caller)
    requires EarlyChecks(p, who).None? && LateChecks(db, p, who).None?
    ensures CheckCaller(p, who).None? && CheckHolder(db, p, who).None? && ValidatePositions(p).None?
    ensures CheckOriginal(db, p, who).None? && CheckItems(db, p).None? && CheckCorrection(db, p).None?
  {
  }

  lemma DraftShape(db: Db, p: Payload, who: Caller, id: Id, digest: Digest)
    requires OneLinePerItem(p.lines)
    ensures var m := Draft(db, p, who, id, digest);
            && DistinctItems(m.lines) && |m.lines| == m.lineCount == |p.lines|
            && (1 <= m.lineCount <= 500 ==> LineCountSealed(m))
            && (forall k :: 0 <= k < |m.lines| ==> Line(m.lines[k].item, m.lines[k].quantity) in p.lines)
  {
    SortOk(p.lines);
    PermutedOncePerItem(p.lines, SortLines(p.lines));
    var m := Draft(db, p, who, id, digest);
    forall k | 0 <= k < |m.lines| ensures Line(m.lines[k].item, m.lines[k].quantity) in p.lines {
      assert SortLines(p.lines)[k] in multiset(SortLines(p.lines));
      assert SortLines(p.lines)[k] in multiset(p.lines);
    }
  }

  /** What passed all checks is accepted by every database rule. */
  lemma WrittenIsAccepted(db: Db, m: Movement)
    requires CheckHeader(db, m).None? && LinesAccepted(db.journal, m) && |m.lines| == m.lineCount
    requires 1 <= m.lineCount <= 500 ==> LineCountSealed(m)
    requires CheckLines(db.tables, m, SignOf(db.journal, m), m.lines).None?
    ensures Accepted(db.journal, m)
  {
    forall k | 0 <= k < |m.lines| ensures m.lines[k].quantity > 0 {
      CheckedEach(db.tables, m, SignOf(db.journal, m), m.lines, k);
    }
  }

  /** Whoever would hold something after the movement passed the holder check or held something before. */
  lemma HoldersPass(db: Db, m: Movement)
    requires LedgerOk(db) && Accepted(db.journal, m)
    requires CheckLines(db.tables, m, SignOf(db.journal, m), m.lines).None?
    requires m.custody.Some? && (!m.kind.Reversal? || SignOf(db.journal, m) > 0) ==> Approvable(db.users, m.custody.value)
    ensures HoldersEligible(db.journal, m, Holders(db.users))
  {
    if m.custody.Some? && m.kind.Reversal? && SignOf(db.journal, m) <= 0 {
      forall k | 0 <= k < |m.lines| && CustodySum(db.journal + [m], m.lines[k].item, m.custody.value) != 0
        ensures Approvable(db.users, m.custody.value)
      {
        var item, user := m.lines[k].item, m.custody.value;
        AcceptedIsWellLinked(db.journal);
        CustodySnoc(db.journal, m, item, user);
        SignsAgree(db.journal, m);
        LineQuantityAt(m.lines, k);
        CheckedLineInRange(db.journal, m, db.tables, SignOf(db.journal, m), k);
        LosesCustody(SignOf(db.journal, m), m.lines[k].quantity);
        assert CustodySum(db.journal, item, user) > 0;
        assert Row(db.tables.custody, (user, item)) == CustodySum(db.journal, item, user);
        assert (user, item) in db.tables.custody;
      }
    }
  }

  lemma LosesCustody(sign: int, quantity: int)
    requires sign <= 0 && quantity > 0
    ensures sign * quantity <= 0
  {
  }

  /** The holder conditions the service establishes before writing. */
  lemma HolderChecked(db: Db, p: Payload, who: Caller, id: Id, digest: Digest)
    requires EarlyChecks(p, who).None? && LateChecks(db, p, who).None?
    ensures var m := Draft(db, p, who, id, digest);
            m.custody.Some? && (!m.kind.Reversal? || SignOf(db.journal, m) > 0) ==> Approvable(db.users, m.custody.value)
  {
    ChecksPassed(db, p, who);
  }

  /** A refresh after accepted checks cannot fail, and books exactly the movement's deltas. */
  lemma {:induction false} WriteBooks(db: Db, m: Movement)
    requires LedgerOk(db) && Accepted(db.journal, m) && CheckHeader(db, m).None? && LinesAccepted(db.journal, m)
    requires CheckLines(db.tables, m, SignOf(db.journal, m), m.lines).None?
    requires m.custody.Some? && (!m.kind.Reversal? || SignOf(db.journal, m) > 0) ==> Approvable(db.users, m.custody.value)
    ensures var (db', answer) := Book(db, m);
            && answer == Created(m) && db'.journal == db.journal + [m] && Agree(db'.journal, db'.tables)
            && (forall item, location :: Row(db'.tables.stock, (item, location))
                  == Row(db.tables.stock, (item, location)) + StockDelta(m, item, location))
            && (forall item, user :: Row(db'.tables.custody, (user, item))
                  == Row(db.tables.custody, (user, item)) + CustodyDelta(db'.journal, m, item, user))
            && HoldersOk(db'.tables.custody, db'.users)
  {
    HoldersPass(db, m);
    ChecksRefineRefresh(db.journal, m, db.tables, Holders(db.users));
    var after := RefreshAll(db.journal + [m], db.tables, m.id, m.lines, Holders(db.users)).tables;
    forall row | row in after.custody ensures Approvable(db.users, row.0) {
      var (user, item) := row;
      assert Row(after.custody, (user, item)) == CustodySum(db.journal + [m], item, user);
      if row !in db.tables.custody {
        assert CustodyDelta(db.journal + [m], m, item, user) != 0;
        TouchedByDelta(m, item);
        var k :| 0 <= k < |m.lines| && m.lines[k].item == item;
        assert CustodySum(db.journal + [m], m.lines[k].item, m.custody.value) != 0;
        assert Holders(db.users)(user);
      }
    }
  }

  lemma TouchedByDelta(m: Movement, item: Id)
    requires Quantity(m, item) != 0
    ensures Touches(m, item)
  {
    if !Touches(m, item) {
      UntouchedQuantity(m.lines, item);
    }
  }

  lemma {:induction false} FindRequestNone(journal: seq<Movement>, actor: Id, key: string)
    requires FindRequest(journal, actor, key).None?
    ensures forall k :: 0 <= k < |journal| ==> journal[k].actor != actor || journal[k].requestId != key
  {
    if |journal| != 0 {
      FindRequestNone(journal[1..], actor, key);
      forall k | 0 <= k < |journal| ensures journal[k].actor != actor || journal[k].requestId != key {
        assert k > 0 ==> journal[k] == journal[1..][k - 1];
      }
    }
  }

  /** A submission that creates something passed every check and wrote the draft. */
  lemma SubmitCreated(db: Db, p: Payload, who: Caller, id: Id, digest: Digest)
    requires Submit(db, p, who, id, digest).1.Created?
    ensures Submit(db, p, who, id, digest) == Book(db, Draft(db, p, who, id, digest))
    ensures EarlyChecks(p, who).None? && LateChecks(db, p, who).None?
    ensures FindRequest(db.journal, who.actor, Normalize(p.requestId)).None?
  {
  }

  lemma DraftReady(db: Db, p: Payload, who: Caller, id: Id, digest: Digest)
    requires EarlyChecks(p, who).None? && LateChecks(db, p, who).None?
    requires FindRequest(db.journal, who.actor, Normalize(p.requestId)).None?
    ensures Ready(db, Draft(db, p, who, id, digest))
  {
    ChecksPassed(db, p, who);
    DraftShape(db, p, who, id, digest);
    HolderChecked(db, p, who, id, digest);
    FindRequestNone(db.journal, who.actor, Normalize(p.requestId));
  }

  /** What the service knows about the row it is about to write. */
  predicate Ready(db: Db, m: Movement) {
    && m.seqNo == db.nextSeq
    && |m.lines| == m.lineCount && (1 <= m.lineCount <= 500 ==> LineCountSealed(m))
    && (m.custody.Some? && (!m.kind.Reversal? || SignOf(db.journal, m) > 0) ==> Approvable(db.users, m.custody.value))
    && forall k :: 0 <= k < |db.journal| ==> db.journal[k].actor != m.actor || db.journal[k].requestId != m.requestId
  }

  lemma BookKeeps(db: Db, m: Movement)
    requires LedgerOk(db) && Ready(db, m) && Book(db, m).1.Created?
    ensures LedgerOk(Book(db, m).0) && Book(db, m).0.journal == db.journal + [m] && Book(db, m).1.movement == m
  {
    WrittenIsAccepted(db, m);
    WriteBooks(db, m);
    AcceptedSnoc(db.journal, m);
    NewRequest(db, m);
  }

  lemma NewRequest(db: Db, m: Movement)
    requires OnePerRequest(db.journal) && Ready(db, m)
    ensures OnePerRequest(db.journal + [m])
  {
  }

  /** Every submission keeps the ledger: tables equal to the journal's sums, one movement per request,
      an accepted journal and eligible holders. */
  lemma SubmitKeeps(db: Db, p: Payload, who: Caller, id: Id, digest: Digest)
    requires LedgerOk(db)
    ensures LedgerOk(Submit(db, p, who, id, digest).0)
    ensures db.journal <= Submit(db, p, who, id, digest).0.journal
  {
    if Submit(db, p, who, id, digest).1.Created? {
      SubmitCreated(db, p, who, id, digest);
      DraftReady(db, p, who, id, digest);
      BookKeeps(db, Draft(db, p, who, id, digest));
    } else {
      SubmitChangesNothing(db, p, who, id, digest);
    }
  }

  lemma SubmitChangesNothing(db: Db, p: Payload, who: Caller, id: Id, digest: Digest)
    requires !Submit(db, p, who, id, digest).1.Created?
    ensures var db' := Submit(db, p, who, id, digest).0; db' == db || db' == db.(nextSeq := db.nextSeq + 1)
  {
  }

  // ----- The database's rules never fire behind the service -----

  /** A reversal payload as reverse_movement builds it. */
  predicate MirrorsOriginal(db: Db, p: Payload) {
    p.kind.Reversal? ==>
      && p.original.Some? && Find(db.journal, p.original.value).Some?
      && var o := Find(db.journal, p.original.value).value;
         p.source == o.destination && p.destination == o.source && p.lines == LinesOf(o.lines)
  }

  lemma OriginalAccepted(db: Db, p: Payload) returns (o: Movement)
    requires LedgerOk(db) && p.original.Some? && Find(db.journal, p.original.value).Some?
    ensures o == Find(db.journal, p.original.value).value && |o.lines| == o.lineCount
    ensures o.custody.Some? ==> o.kind.Issue? || o.kind.Return? || o.kind.Reversal?
  {
    FindSound(db.journal, p.original.value);
    o := Find(db.journal, p.original.value).value;
    var i :| 0 <= i < |db.journal| && db.journal[i] == o;
    assert Accepted(db.journal[..i], o);
  }

  lemma HeaderPasses(db: Db, p: Payload, who: Caller, id: Id, digest: Digest)
    requires LedgerOk(db) && FreshId(db, id) && MirrorsOriginal(db, p)
    requires CheckCaller(p, who).None? && ValidatePositions(p).None?
    requires CheckOriginal(db, p, who).None? && CheckCorrection(db, p).None?
    ensures CheckHeader(db, Draft(db, p, who, id, digest)) != Some(HeaderRejected)
  {
    if p.original.Some? {
      var o := OriginalAccepted(db, p);
    }
  }

  lemma LinesPass(db: Db, p: Payload, who: Caller, id: Id, digest: Digest)
    requires LedgerOk(db) && MirrorsOriginal(db, p) && OneLinePerItem(p.lines)
    requires ValidatePositions(p).None? && CheckOriginal(db, p, who).None? && CheckCorrection(db, p).None?
    ensures LinesAccepted(db.journal, Draft(db, p, who, id, digest))
  {
    DraftShape(db, p, who, id, digest);
    var m := Draft(db, p, who, id, digest);
    if p.original.Some? {
      var o := Find(db.journal, p.original.value).value;
      forall k | 0 <= k < |m.lines| ensures Matched(m.lines[k], o.lines, m.kind.Reversal?) {
        var x :| 0 <= x < |p.lines| && p.lines[x] == Line(m.lines[k].item, m.lines[k].quantity);
        if p.kind.Reversal? {
          assert o.lines[x].item == m.lines[k].item && o.lines[x].quantity == m.lines[k].quantity;
        } else {
          assert p.lines[x].item in Items(o.lines);
          var y :| 0 <= y < |o.lines| && o.lines[y].item == p.lines[x].item;
        }
      }
    }
  }

  predicate RuleFired(answer: Answer) {
    answer == Refused(HeaderRejected) || answer == Refused(LinesRejected) || answer == Refused(ProjectionFailed)
  }

  lemma BookPassesRules(db: Db, m: Movement)
    requires LedgerOk(db) && Ready(db, m) && CheckHeader(db, m) != Some(HeaderRejected) && LinesAccepted(db.journal, m)
    ensures !RuleFired(Book(db, m).1)
  {
    if CheckHeader(db, m).None? && CheckLines(db.tables, m, SignOf(db.journal, m), m.lines).None? {
      WrittenIsAccepted(db, m);
      WriteBooks(db, m);
    } else {
      HeaderReasons(db, m);
    }
  }

  lemma HeaderReasons(db: Db, m: Movement)
    ensures CheckHeader(db, m).Some? ==>
              CheckHeader(db, m).value in {LineCountRejected, ActorRejected, HeaderRejected}
  {
  }

  predicate OwnReason(reason: Refusal) {
    reason != HeaderRejected && reason != LinesRejected && reason != ProjectionFailed
  }

  predicate Own(refusal: Option<Refusal>) {
    refusal.Some? ==> OwnReason(refusal.value)
  }

  lemma RequestChecksOwn(db: Db, p: Payload, who: Caller)
    ensures Own(CheckCaller(p, who)) && Own(CheckHolder(db, p, who)) && Own(ValidatePositions(p))
    ensures Own(CheckText(p.requestId, 128, KeyRequired, KeyTooLong)) && Own(CheckText(who.name, 579, NameInvalid, NameInvalid))
  {
  }

  lemma RowChecksOwn(db: Db, p: Payload, who: Caller)
    ensures Own(CheckOriginal(db, p, who)) && Own(CheckLocations(db, p)) && Own(CheckItems(db, p)) && Own(CheckCorrection(db, p))
  {
  }

  lemma CheckReasons(db: Db, p: Payload, who: Caller)
    ensures Own(EarlyChecks(p, who)) && Own(LateChecks(db, p, who))
  {
    RequestChecksOwn(db, p, who);
    RowChecksOwn(db, p, who);
  }

  lemma SubmitPassesRules(db: Db, p: Payload, who: Caller, id: Id, digest: Digest)
    requires LedgerOk(db) && FreshId(db, id) && MirrorsOriginal(db, p)
    ensures !RuleFired(Submit(db, p, who, id, digest).1)
  {
    CheckReasons(db, p, who);
    if EarlyChecks(p, who).None? && FindRequest(db.journal, who.actor, Normalize(p.requestId)).None?
       && LateChecks(db, p, who).None?
    {
      ChecksPassed(db, p, who);
      HeaderPasses(db, p, who, id, digest);
      LinesPass(db, p, who, id, digest);
      DraftReady(db, p, who, id, digest);
      BookPassesRules(db, Draft(db, p, who, id, digest));
    }
  }

  /** Creating a movement: once the service's own checks pass, no link, position, custody, line or
      projection rule of the database rejects it. */
  lemma {:induction false} CreatePassesRules(db: Db, p: Payload, who: Caller, id: Id, digest: Digest)
    requires LedgerOk(db) && FreshId(db, id)
    ensures !RuleFired(Create(db, p, who, id, digest).1)
  {
    if !p.kind.Reversal? {
      SubmitPassesRules(db, p, who, id, digest);
    }
  }

  /** Reversing a movement: likewise. */
  lemma {:induction false} ReversePassesRules(db: Db, original: Id, requestId: string, actor: Id, name: string, id: Id, digest: Digest)
    requires LedgerOk(db) && FreshId(db, id)
    ensures !RuleFired(Reverse(db, original, requestId, actor, name, id, digest).1)
    ensures LedgerOk(Reverse(db, original, requestId, actor, name, id, digest).0)
  {
    var found := Find(db.journal, original);
    if found.Some? {
      var o := found.value;
      var p := Payload(Reversal, o.destination, o.source, Some(original), requestId, LinesOf(o.lines));
      SubmitPassesRules(db, p, Caller(actor, name, o.custody), id, digest);
      SubmitKeeps(db, p, Caller(actor, name, o.custody), id, digest);
    }
  }

  // ----- Reversing undoes -----

  lemma TablesEqual(a: map<(Id, Id), int>, b: map<(Id, Id), int>)
    requires PositiveRows(a) && PositiveRows(b) && forall key :: Row(a, key) == Row(b, key)
    ensures a == b
  {
    forall key ensures key in a <==> key in b {
      assert Row(a, key) == Row(b, key);
    }
    forall key | key in a ensures a[key] == b[key] {
      assert Row(a, key) == Row(b, key);
    }
  }

  lemma AgreeUnique(journal: seq<Movement>, journal': seq<Movement>, t: Tables, t': Tables)
    requires Agree(journal, t) && Agree(journal', t')
    requires forall item, location :: StockSum(journal, item, location) == StockSum(journal', item, location)
    requires forall item, user :: CustodySum(journal, item, user) == CustodySum(journal', item, user)
    ensures t == t'
  {
    forall key ensures Row(t.stock, key) == Row(t'.stock, key) {
      var (item, location) := key;
      assert StockSum(journal, item, location) == StockSum(journal', item, location);
    }
    forall key ensures Row(t.custody, key) == Row(t'.custody, key) {
      var (user, item) := key;
      assert CustodySum(journal, item, user) == CustodySum(journal', item, user);
    }
    TablesEqual(t.stock, t'.stock);
    TablesEqual(t.custody, t'.custody);
  }

  /** A movement directly followed by its reversal leaves both tables exactly as they were, row for row. */
  lemma {:induction false} ReverseUndoes(db: Db, m: Movement, db1: Db, requestId: string, actor: Id, name: string, id: Id, digest: Digest)
    requires LedgerOk(db) && LedgerOk(db1) && db1.journal == db.journal + [m] && FreshId(db1, id)
    requires Reverse(db1, m.id, requestId, actor, name, id, digest).1.Created?
    ensures Reverse(db1, m.id, requestId, actor, name, id, digest).0.tables == db.tables
  {
    AcceptedIsWellLinked(db1.journal);
    assert db1.journal[|db.journal|] == m;
    FindFirst(db1.journal, |db.journal|);
    var p := Payload(Reversal, m.destination, m.source, Some(m.id), requestId, LinesOf(m.lines));
    var who := Caller(actor, name, m.custody);
    SubmitCreated(db1, p, who, id, digest);
    DraftReady(db1, p, who, id, digest);
    var r := Draft(db1, p, who, id, digest);
    BookKeeps(db1, r);
    PairUndone(db.journal, m, r, db.tables, Book(db1, r).0.tables);
  }

  lemma PairUndone(journal: seq<Movement>, m: Movement, r: Movement, t: Tables, t': Tables)
    requires AcceptedJournal(journal + [m] + [r]) && r.kind.Reversal? && r.original == Some(m.id)
    requires Agree(journal, t) && Agree(journal + [m] + [r], t')
    ensures t' == t
  {
    var j, n := journal + [m] + [r], |journal|;
    assert RemoveAt(j, n + 1) == journal + [m];
    assert Remove(j, n, n + 1) == journal;
    forall item, location ensures StockSum(journal, item, location) == StockSum(j, item, location) {
      PairCancels(j, n, n + 1, item);
    }
    forall item, user ensures CustodySum(journal, item, user) == CustodySum(j, item, user) {
      PairCancels(j, n, n + 1, item);
    }
    AgreeUnique(journal, j, t, t');
  }

  // ----- Idempotent replay -----

  lemma {:induction false} FindRequestOf(journal: seq<Movement>, k: nat)
    requires OnePerRequest(journal) && k < |journal|
    ensures FindRequest(journal, journal[k].actor, journal[k].requestId) == Some(journal[k])
  {
    if k != 0 {
      assert journal[0].actor != journal[k].actor || journal[0].requestId != journal[k].requestId;
      FindRequestOf(journal[1..], k - 1);
    }
  }

  /** A submission under the key of a committed movement changes nothing: it returns that movement exactly
      when the canonical payload is the one it was created from, and is refused otherwise, unless the digests of
      the two collide. */
  lemma {:induction false} ResubmissionDecided(db: Db, k: nat, first: Canonical, p: Payload, who: Caller, id: Id, digest: Digest)
    requires LedgerOk(db) && k < |db.journal|
    requires db.journal[k].fingerprint == digest(first)
    requires db.journal[k].actor == who.actor && db.journal[k].requestId == Normalize(p.requestId)
    requires digest(Canon(p, who.custody)) == digest(first) ==> Canon(p, who.custody) == first
    ensures Submit(db, p, who, id, digest).0 == db
    ensures Submit(db, p, who, id, digest).1 == Replayed(db.journal[k])
       <==> EarlyChecks(p, who).None? && Canon(p, who.custody) == first
    ensures Submit(db, p, who, id, digest).1 == Replayed(db.journal[k]) || Submit(db, p, who, id, digest).1.Refused?
  {
    FindRequestOf(db.journal, k);
  }

  /** After a movement was created, resubmitting its payload in any later state, with the lines in any order
      and the request id spaced differently, returns that movement and changes nothing. */
  lemma {:induction false} PermutedResubmission(db: Db, p: Payload, who: Caller, id: Id, digest: Digest, later: Db, q: Payload, id2: Id)
    requires LedgerOk(db) && FreshId(db, id) && Submit(db, p, who, id, digest).1.Created?
    requires LedgerOk(later) && Submit(db, p, who, id, digest).0.journal <= later.journal
    requires multiset(q.lines) == multiset(p.lines) && Words(q.requestId, "") == Words(p.requestId, "")
    requires q.(lines := p.lines, requestId := p.requestId) == p
    ensures Submit(later, q, who, id2, digest) == (later, Replayed(Submit(db, p, who, id, digest).1.movement))
  {
    SubmitCreated(db, p, who, id, digest);
    DraftReady(db, p, who, id, digest);
    var m := Draft(db, p, who, id, digest);
    BookKeeps(db, m);
    SameCanon(db, p, who, q);
    assert later.journal[|db.journal|] == m;
    FindRequestOf(later.journal, |db.journal|);
    SameEarly(p, q, who);
  }

  lemma SameCanon(db: Db, p: Payload, who: Caller, q: Payload)
    requires EarlyChecks(p, who).None? && LateChecks(db, p, who).None?
    requires multiset(q.lines) == multiset(p.lines) && Words(q.requestId, "") == Words(p.requestId, "")
    requires q.(lines := p.lines, requestId := p.requestId) == p
    ensures Canon(q, who.custody) == Canon(p, who.custody) && Normalize(q.requestId) == Normalize(p.requestId)
  {
    ChecksPassed(db, p, who);
    SortPermuted(p.lines, q.lines);
    NormalizeByWords(p.requestId, q.requestId);
  }

  lemma SameEarly(p: Payload, q: Payload, who: Caller)
    requires p.kind == q.kind && Normalize(p.requestId) == Normalize(q.requestId)
    ensures EarlyChecks(p, who) == EarlyChecks(q, who)
  {
    assert CheckCaller(p, who) == CheckCaller(q, who);
  }
}
