/** What a submission does and when, in terms of the request alone: the movement it names, the rows it moves, the
    conditions it must meet and what each refusal says. */
module ServiceEffects {
  import opened Journal
  import opened Reversals
  import opened Projections
  import opened Idempotency
  import opened Policy
  import opened Booking
  import opened Service
  import opened ServiceTheorems

  // ----- What is booked -----

  /** How many units one unit of the payload adds to the custody of the caller's custody user. */
  function PayloadPerUnit(journal: seq<Movement>, p: Payload): int {
    match p.kind
    case Issue => 1
    case Return => -1
    case Reversal =>
      if p.original.Some? && (exists i :: 0 <= i < |journal| && journal[i].id == p.original.value && journal[i].kind.Issue?) then -1
      else if p.original.Some? && (exists i :: 0 <= i < |journal| && journal[i].id == p.original.value && journal[i].kind.Return?) then 1
      else 0
    case _ => 0
  }

  /** The movement carries what the request says. */
  predicate Names(m: Movement, p: Payload, who: Caller) {
    && m.kind == p.kind && m.source == p.source && m.destination == p.destination && m.original == p.original
    && m.actor == who.actor && m.custody == who.custody && m.requestId == Join(Words(p.requestId, ""))
    && m.lineCount == |p.lines| && multiset(LinesOf(m.lines)) == multiset(p.lines)
  }

  /** Every line of the payload takes its quantity from the source, adds it to the destination and moves it into or
      out of custody; no other row changes. */
  ghost predicate Delivered(db: Db, p: Payload, who: Caller, db': Db) {
    && (forall k, l :: 0 <= k < |p.lines| ==> StockDelivered(db, p, p.lines[k], db', l))
    && (forall k, u :: 0 <= k < |p.lines| ==> CustodyDelivered(db, p, who, p.lines[k], db', u))
    && (forall item, l :: (forall k :: 0 <= k < |p.lines| ==> p.lines[k].item != item) ==>
          Row(db'.tables.stock, (item, l)) == Row(db.tables.stock, (item, l)))
    && (forall item, u :: (forall k :: 0 <= k < |p.lines| ==> p.lines[k].item != item) ==>
          Row(db'.tables.custody, (u, item)) == Row(db.tables.custody, (u, item)))
  }

  predicate StockDelivered(db: Db, p: Payload, line: Line, db': Db, location: Id) {
    Row(db'.tables.stock, (line.item, location)) ==
      Row(db.tables.stock, (line.item, location))
      + (if p.destination == Some(location) then line.quantity else 0)
      - (if p.source == Some(location) then line.quantity else 0)
  }

  predicate CustodyDelivered(db: Db, p: Payload, who: Caller, line: Line, db': Db, user: Id) {
    Row(db'.tables.custody, (user, line.item)) ==
      Row(db.tables.custody, (user, line.item))
      + if who.custody == Some(user) then PayloadPerUnit(db.journal, p) * line.quantity else 0
  }

  lemma DraftNames(db: Db, p: Payload, who: Caller, id: Id, digest: Digest)
    ensures Names(Draft(db, p, who, id, digest), p, who)
  {
    SortOk(p.lines);
    assert LinesOf(Rows(SortLines(p.lines))) == SortLines(p.lines);
  }

  lemma RowOfLine(p: Payload, k: nat, rows: seq<LineRow>) returns (i: nat)
    requires k < |p.lines| && multiset(LinesOf(rows)) == multiset(p.lines)
    ensures i < |rows| && rows[i].item == p.lines[k].item && rows[i].quantity == p.lines[k].quantity
  {
    assert p.lines[k] in multiset(LinesOf(rows));
    i :| 0 <= i < |LinesOf(rows)| && LinesOf(rows)[i] == p.lines[k];
  }

  lemma LineOfRow(p: Payload, rows: seq<LineRow>, item: Id)
    requires multiset(LinesOf(rows)) == multiset(p.lines) && item in Items(rows)
    ensures exists k :: 0 <= k < |p.lines| && p.lines[k].item == item
  {
    var i :| 0 <= i < |rows| && rows[i].item == item;
    assert LinesOf(rows)[i] in multiset(LinesOf(rows));
    assert LinesOf(rows)[i] in multiset(p.lines);
    var k :| 0 <= k < |p.lines| && p.lines[k] == LinesOf(rows)[i];
  }

  /** A movement booked is a payload delivered. */
  lemma BookedIsDelivered(db: Db, p: Payload, who: Caller, m: Movement, db': Db)
    requires Names(m, p, who) && Booked(db.journal, m, db.tables, db'.tables)
    ensures Delivered(db, p, who, db')
  {
    assert PerUnit(db.journal, m) == PayloadPerUnit(db.journal, p);
    forall k, l | 0 <= k < |p.lines| ensures StockDelivered(db, p, p.lines[k], db', l) {
      var i := RowOfLine(p, k, m.lines);
      assert StockMoved(m, m.lines[i], db.tables, db'.tables, l);
    }
    forall k, u | 0 <= k < |p.lines| ensures CustodyDelivered(db, p, who, p.lines[k], db', u) {
      var i := RowOfLine(p, k, m.lines);
      assert CustodyMoved(db.journal, m, m.lines[i], db.tables, db'.tables, u);
    }
    forall item | forall k :: 0 <= k < |p.lines| ==> p.lines[k].item != item ensures item !in Items(m.lines) {
      if item in Items(m.lines) {
        LineOfRow(p, m.lines, item);
      }
    }
  }

  /** A submission that creates a movement creates the one the request names, books its lines and touches nothing
      else but the sequence. */
  lemma {:induction false} SubmitDelivers(db: Db, p: Payload, who: Caller, id: Id, digest: Digest)
    requires LedgerOk(db) && Submit(db, p, who, id, digest).1.Created?
    ensures var (db', answer) := Submit(db, p, who, id, digest);
            && Names(answer.movement, p, who) && answer.movement.id == id && answer.movement.seqNo == db.nextSeq
            && answer.movement.fingerprint == digest(Canon(p, who.custody))
            && db'.journal == db.journal + [answer.movement] && Delivered(db, p, who, db')
            && db' == db.(journal := db'.journal, tables := db'.tables, nextSeq := db.nextSeq + 1)
  {
    SubmitCreated(db, p, who, id, digest);
    DraftReady(db, p, who, id, digest);
    var m := Draft(db, p, who, id, digest);
    DraftNames(db, p, who, id, digest);
    BookEffect(db, m);
    BookedIsDelivered(db, p, who, m, Book(db, m).0);
  }

  lemma BookEffect(db: Db, m: Movement)
    requires LedgerOk(db) && Ready(db, m) && Book(db, m).1.Created?
    ensures var (db', answer) := Book(db, m);
            && answer == Created(m) && db'.journal == db.journal + [m] && Booked(db.journal, m, db.tables, db'.tables)
            && db' == db.(journal := db'.journal, tables := db'.tables, nextSeq := db.nextSeq + 1)
  {
    BookKeeps(db, m);
    LastAccepted(db.journal, m);
    AgreeMeansBooked(db.journal, m, db.tables, Book(db, m).0.tables);
  }

  lemma LastAccepted(journal: seq<Movement>, m: Movement)
    requires AcceptedJournal(journal + [m])
    ensures Accepted(journal, m)
  {
    var j := journal + [m];
    assert Accepted(j[..|journal|], j[|journal|]);
    assert j[..|journal|] == journal;
  }

  // ----- When a request is granted -----

  predicate Positioned(kind: MovementType, source: Option<Id>, destination: Option<Id>) {
    match kind
    case Receipt => source.None? && destination.Some?
    case Return => source.None? && destination.Some?
    case Issue => source.Some? && destination.None?
    case WriteOff => source.Some? && destination.None?
    case Transfer => source.Some? && destination.Some? && source != destination
    case Correction => (source.Some? || destination.Some?) && (source.Some? ==> source != destination)
    case Reversal => (source.Some? || destination.Some?) && (source.Some? ==> source != destination)
  }

  predicate Holder(db: Db, user: Id) {
    && user in db.users && db.users[user].access == Approved
    && (db.users[user].role == Engineer || db.users[user].role == SeniorEngineer)
  }

  /** Custody goes with issues and returns of the caller itself, and with reversals. */
  predicate CustodyGranted(db: Db, p: Payload, who: Caller) {
    who.custody.Some? ==>
      && who.custody.value in db.users
      && (!p.kind.Reversal? ==> (p.kind.Issue? || p.kind.Return?) && who.custody.value == who.actor && Holder(db, who.actor))
  }

  /** The original exists, may be adjusted, and for a reversal is not reversed yet; reversing a return needs a holder. */
  predicate LinkGranted(db: Db, p: Payload, who: Caller) {
    if p.kind.Correction? || p.kind.Reversal? then
      && p.original.Some? && p.original.value !in db.receipts
      && (exists i :: 0 <= i < |db.journal| && db.journal[i].id == p.original.value)
      && (forall i :: 0 <= i < |db.journal| && db.journal[i].id == p.original.value ==> TargetGranted(db, p, who, db.journal[i]))
      && (p.kind.Reversal? ==>
            forall i :: 0 <= i < |db.journal| && db.journal[i].kind.Reversal? ==> db.journal[i].original != p.original)
    else p.original.None?
  }

  predicate TargetGranted(db: Db, p: Payload, who: Caller, o: Movement) {
    && !o.kind.Reversal?
    && (p.kind.Correction? ==>
          && o.custody.None?
          && ((p.source.Some? && (p.source == o.source || p.source == o.destination))
              || (p.destination.Some? && (p.destination == o.source || p.destination == o.destination)))
          && forall k :: 0 <= k < |p.lines| ==> Touches(o, p.lines[k].item))
    && (p.kind.Reversal? ==>
          && who.custody == o.custody
          && (o.kind.Return? && who.custody.Some? ==> Holder(db, who.custody.value)))
  }

  predicate OpenAt(db: Db, position: Option<Id>) {
    position.Some? ==> position.value in db.locations && db.locations[position.value]
  }

  /** Each item once, known, and active where it is received or issued. */
  predicate ItemsGranted(db: Db, p: Payload) {
    && (forall i, k :: 0 <= i < k < |p.lines| ==> p.lines[i].item != p.lines[k].item)
    && (forall k :: 0 <= k < |p.lines| ==>
          p.lines[k].item in db.items && (p.kind.Receipt? || p.kind.Issue? ==> db.items[p.lines[k].item]))
  }

  predicate TextGranted(text: string, limit: nat) {
    Words(text, "") != [] && |Join(Words(text, ""))| <= limit
  }

  /** Everything the service asks of a request before it looks at the balances. */
  predicate Granted(db: Db, p: Payload, who: Caller) {
    && TextGranted(p.requestId, 128) && TextGranted(who.name, 579)
    && CustodyGranted(db, p, who) && Positioned(p.kind, p.source, p.destination)
    && LinkGranted(db, p, who) && OpenAt(db, p.source) && OpenAt(db, p.destination) && ItemsGranted(db, p)
  }

  lemma TextIff(text: string, limit: nat, blank: Refusal, long: Refusal)
    ensures CheckText(text, limit, blank, long).None? <==> TextGranted(text, limit)
  {
    WordsAreWords(text, "");
    JoinEmpty(Words(text, ""));
  }

  lemma JoinEmpty(words: seq<string>)
    requires AreWords(words)
    ensures Join(words) == "" <==> words == []
  {
    if |words| > 0 {
      assert IsWord(words[0]);
    }
  }

  lemma HolderIff(db: Db, user: Id)
    ensures Approvable(db.users, user) <==> Holder(db, user)
  {
  }

  lemma PositionsIff(p: Payload)
    ensures ValidatePositions(p).None? <==> Positioned(p.kind, p.source, p.destination) && Linked(p.kind) == p.original.Some?
  {
  }

  /** Both the check of the original and that of a correction, for the one movement with the original's id. */
  lemma LinkIff(db: Db, p: Payload, who: Caller)
    requires UniqueIds(db.journal) && Linked(p.kind) == p.original.Some?
    ensures CheckOriginal(db, p, who).None? && CheckCorrection(db, p).None? <==> LinkGranted(db, p, who)
  {
    if p.original.Some? {
      FindSound(db.journal, p.original.value);
      if Find(db.journal, p.original.value).Some? {
        var o := Find(db.journal, p.original.value).value;
        var i :| 0 <= i < |db.journal| && db.journal[i] == o;
        assert forall k :: 0 <= k < |db.journal| && db.journal[k].id == p.original.value ==> k == i;
        TargetIff(db, p, who, o);
      }
    }
  }

  lemma TargetIff(db: Db, p: Payload, who: Caller, o: Movement)
    requires p.original.Some? && Linked(p.kind) && Find(db.journal, p.original.value) == Some(o)
    ensures CheckOriginal(db, p, who).None? && CheckCorrection(db, p).None?
       <==> p.original.value !in db.receipts && TargetGranted(db, p, who, o)
            && (p.kind.Reversal? ==> !Reversed(db.journal, p.original.value))
  {
    if p.kind.Correction? {
      CorrectionIff(db, p, o);
    } else if who.custody.Some? {
      HolderIff(db, who.custody.value);
    }
  }

  lemma CorrectionIff(db: Db, p: Payload, o: Movement)
    requires p.kind.Correction? && p.original.Some? && Find(db.journal, p.original.value) == Some(o)
    ensures CheckCorrection(db, p).None? <==>
              && ((p.source.Some? && (p.source == o.source || p.source == o.destination))
                  || (p.destination.Some? && (p.destination == o.source || p.destination == o.destination)))
              && forall k :: 0 <= k < |p.lines| ==> Touches(o, p.lines[k].item)
  {
    assert forall item :: item in Items(o.lines) <==> Touches(o, item);
  }

  lemma ItemsIff(db: Db, p: Payload)
    ensures CheckItems(db, p).None? <==> ItemsGranted(db, p)
  {
  }

  lemma CustodyIff(db: Db, p: Payload, who: Caller)
    ensures CheckCaller(p, who).None? && CheckHolder(db, p, who).None? <==> CustodyGranted(db, p, who)
  {
    if who.custody.Some? {
      HolderIff(db, who.custody.value);
    }
  }

  /** The service's checks pass exactly for the requests described above. */
  lemma ChecksIff(db: Db, p: Payload, who: Caller)
    requires UniqueIds(db.journal)
    ensures EarlyChecks(p, who).None? && LateChecks(db, p, who).None? <==> Granted(db, p, who)
  {
    TextIff(p.requestId, 128, KeyRequired, KeyTooLong);
    TextIff(who.name, 579, NameInvalid, NameInvalid);
    CustodyIff(db, p, who);
    PositionsIff(p);
    ItemsIff(db, p);
    if Linked(p.kind) == p.original.Some? {
      LinkIff(db, p, who);
    }
    LocationsIff(db, p);
  }

  lemma LocationsIff(db: Db, p: Payload)
    ensures CheckLocations(db, p).None? <==> OpenAt(db, p.source) && OpenAt(db, p.destination)
  {
  }

  /** No movement of this actor under these words. */
  predicate Unused(journal: seq<Movement>, actor: Id, words: seq<string>) {
    forall k :: 0 <= k < |journal| ==> journal[k].actor != actor || journal[k].requestId != Join(words)
  }

  lemma {:induction false} UnusedIff(journal: seq<Movement>, actor: Id, key: string)
    ensures FindRequest(journal, actor, key).None?
       <==> forall k :: 0 <= k < |journal| ==> journal[k].actor != actor || journal[k].requestId != key
  {
    if |journal| != 0 {
      UnusedIff(journal[1..], actor, key);
      assert forall k :: 1 <= k < |journal| ==> journal[k] == journal[1..][k - 1];
      assert forall k :: 0 <= k < |journal[1..]| ==> journal[1..][k] == journal[k + 1];
    }
  }

  /** The actor's role allows issuing or returning with, or without, custody. */
  predicate RoleFits(db: Db, p: Payload, who: Caller) {
    (p.kind.Issue? || p.kind.Return?) && who.actor in db.users ==>
      && (db.users[who.actor].role == Engineer || db.users[who.actor].role == SeniorEngineer ==> who.custody == Some(who.actor))
      && (db.users[who.actor].role == Admin || db.users[who.actor].role == Owner ==> who.custody.None?)
  }

  /** Every line of the payload fits the balances. */
  predicate Stocked(db: Db, p: Payload, who: Caller) {
    forall k :: 0 <= k < |p.lines| ==>
      LineFits(db.tables, p.source, p.destination, who.custody, PayloadPerUnit(db.journal, p), p.lines[k].item, p.lines[k].quantity)
  }

  lemma StockedIff(db: Db, p: Payload, who: Caller, m: Movement)
    requires Names(m, p, who)
    ensures LinesFit(db.tables, m, PerUnit(db.journal, m)) <==> Stocked(db, p, who)
  {
    assert PerUnit(db.journal, m) == PayloadPerUnit(db.journal, p);
    if LinesFit(db.tables, m, PerUnit(db.journal, m)) {
      forall k | 0 <= k < |p.lines|
        ensures LineFits(db.tables, p.source, p.destination, who.custody, PayloadPerUnit(db.journal, p), p.lines[k].item,
                         p.lines[k].quantity)
      {
        var i := RowOfLine(p, k, m.lines);
      }
    }
    if Stocked(db, p, who) {
      forall i | 0 <= i < |m.lines|
        ensures LineFits(db.tables, m.source, m.destination, m.custody, PerUnit(db.journal, m), m.lines[i].item, m.lines[i].quantity)
      {
        assert LinesOf(m.lines)[i] in multiset(LinesOf(m.lines));
        assert LinesOf(m.lines)[i] in multiset(p.lines);
        var k :| 0 <= k < |p.lines| && p.lines[k] == LinesOf(m.lines)[i];
      }
    }
  }

  // ----- When a movement is created -----

  lemma CheckHeaderIff(db: Db, m: Movement)
    ensures CheckHeader(db, m) != Some(HeaderRejected) ==>
              (CheckHeader(db, m).None? <==> 1 <= m.lineCount <= 500 && ActorAccepted(db.users, m))
  {
  }

  lemma BookCreatedIff(db: Db, m: Movement)
    requires LedgerOk(db) && Ready(db, m) && CheckHeader(db, m) != Some(HeaderRejected) && LinesAccepted(db.journal, m)
    ensures Book(db, m).1.Created? <==> CheckHeader(db, m).None? && LinesFit(db.tables, m, PerUnit(db.journal, m))
  {
    if CheckHeader(db, m).None? {
      AcceptedIsWellLinked(db.journal);
      HeaderSign(db.journal, m);
      CheckLinesIff(db.tables, m, SignOf(db.journal, m));
      if LinesFit(db.tables, m, PerUnit(db.journal, m)) {
        WrittenIsAccepted(db, m);
        WriteBooks(db, m);
      }
    }
  }

  /** A submission creates a movement exactly when the request is granted, its key unused, it has 1 to 500 lines, the
      actor's role fits the custody, and every line fits the balances. */
  lemma {:induction false} CreatedIff(db: Db, p: Payload, who: Caller, id: Id, digest: Digest)
    requires LedgerOk(db) && FreshId(db, id) && MirrorsOriginal(db, p)
    ensures Submit(db, p, who, id, digest).1.Created? <==>
              && Granted(db, p, who) && Unused(db.journal, who.actor, Words(p.requestId, ""))
              && 1 <= |p.lines| <= 500 && RoleFits(db, p, who) && Stocked(db, p, who)
  {
    AcceptedIsWellLinked(db.journal);
    ChecksIff(db, p, who);
    UnusedIff(db.journal, who.actor, Normalize(p.requestId));
    if Granted(db, p, who) && Unused(db.journal, who.actor, Words(p.requestId, "")) {
      GrantedCreatedIff(db, p, who, id, digest);
    }
  }

  lemma GrantedCreatedIff(db: Db, p: Payload, who: Caller, id: Id, digest: Digest)
    requires LedgerOk(db) && FreshId(db, id) && MirrorsOriginal(db, p)
    requires EarlyChecks(p, who).None? && LateChecks(db, p, who).None?
    requires FindRequest(db.journal, who.actor, Normalize(p.requestId)).None?
    ensures Submit(db, p, who, id, digest).1.Created? <==> 1 <= |p.lines| <= 500 && RoleFits(db, p, who) && Stocked(db, p, who)
  {
    var m := Draft(db, p, who, id, digest);
    DraftNames(db, p, who, id, digest);
    StockedIff(db, p, who, m);
    ChecksPassed(db, p, who);
    HeaderPasses(db, p, who, id, digest);
    LinesPass(db, p, who, id, digest);
    DraftReady(db, p, who, id, digest);
    BookCreatedIff(db, m);
    CheckHeaderIff(db, m);
  }

  /** create_movement takes every kind but reversals. */
  lemma {:induction false} CreateCreatedIff(db: Db, p: Payload, who: Caller, id: Id, digest: Digest)
    requires LedgerOk(db) && FreshId(db, id)
    ensures Create(db, p, who, id, digest).1.Created? <==>
              && !p.kind.Reversal? && Granted(db, p, who) && Unused(db.journal, who.actor, Words(p.requestId, ""))
              && 1 <= |p.lines| <= 500 && RoleFits(db, p, who) && Stocked(db, p, who)
    ensures Create(db, p, who, id, digest).1.Created? ==> Create(db, p, who, id, digest) == Submit(db, p, who, id, digest)
  {
    if !p.kind.Reversal? {
      CreatedIff(db, p, who, id, digest);
    }
  }

  // ----- Reversals -----

  /** Each line of the original goes back: out of where it went, into where it came from, and out of or into custody. */
  ghost predicate TakenBack(db: Db, o: Movement, db': Db) {
    && (forall k, l :: 0 <= k < |o.lines| ==> StockTakenBack(db, o, o.lines[k], db', l))
    && (forall k, u :: 0 <= k < |o.lines| ==> CustodyTakenBack(db, o, o.lines[k], db', u))
  }

  predicate StockTakenBack(db: Db, o: Movement, line: LineRow, db': Db, location: Id) {
    Row(db'.tables.stock, (line.item, location)) ==
      Row(db.tables.stock, (line.item, location))
      + (if o.source == Some(location) then line.quantity else 0)
      - (if o.destination == Some(location) then line.quantity else 0)
  }

  predicate CustodyTakenBack(db: Db, o: Movement, line: LineRow, db': Db, user: Id) {
    Row(db'.tables.custody, (user, line.item)) ==
      Row(db.tables.custody, (user, line.item))
      + if o.custody != Some(user) then 0
        else if o.kind.Issue? then -line.quantity
        else if o.kind.Return? then line.quantity else 0
  }

  /** A created reversal is a REVERSAL of the movement asked for and takes every line of it back. */
  lemma {:induction false} ReversalTakesBack(db: Db, i: nat, requestId: string, actor: Id, name: string, id: Id, digest: Digest)
    requires LedgerOk(db) && i < |db.journal|
    requires Reverse(db, db.journal[i].id, requestId, actor, name, id, digest).1.Created?
    ensures var (db', answer) := Reverse(db, db.journal[i].id, requestId, actor, name, id, digest);
            && answer.movement.kind == Reversal && answer.movement.original == Some(db.journal[i].id)
            && answer.movement.actor == actor && answer.movement.custody == db.journal[i].custody
            && TakenBack(db, db.journal[i], db')
  {
    var o := db.journal[i];
    AcceptedIsWellLinked(db.journal);
    FindFirst(db.journal, i);
    var p := Payload(Reversal, o.destination, o.source, Some(o.id), requestId, LinesOf(o.lines));
    var who := Caller(actor, name, o.custody);
    SubmitDelivers(db, p, who, id, digest);
    ReversalPerUnit(db.journal, i, p);
    DeliveredIsTakenBack(db, o, p, who, Submit(db, p, who, id, digest).0);
  }

  lemma DeliveredIsTakenBack(db: Db, o: Movement, p: Payload, who: Caller, db': Db)
    requires Delivered(db, p, who, db') && p.source == o.destination && p.destination == o.source && p.lines == LinesOf(o.lines)
    requires PayloadPerUnit(db.journal, p) == (if o.kind.Issue? then -1 else if o.kind.Return? then 1 else 0)
    requires who.custody == o.custody
    ensures TakenBack(db, o, db')
  {
    forall k, l | 0 <= k < |o.lines| ensures StockTakenBack(db, o, o.lines[k], db', l) {
      assert StockDelivered(db, p, p.lines[k], db', l);
    }
    forall k, u | 0 <= k < |o.lines| ensures CustodyTakenBack(db, o, o.lines[k], db', u) {
      assert CustodyDelivered(db, p, who, p.lines[k], db', u);
    }
  }

  lemma ReversalPerUnit(journal: seq<Movement>, i: nat, p: Payload)
    requires UniqueIds(journal) && i < |journal| && p.kind.Reversal? && p.original == Some(journal[i].id)
    ensures PayloadPerUnit(journal, p) == if journal[i].kind.Issue? then -1 else if journal[i].kind.Return? then 1 else 0
  {
    assert forall k :: 0 <= k < |journal| && journal[k].id == journal[i].id ==> k == i;
  }

  /** A movement can be reversed exactly when it exists, the mirrored request is granted under an unused key, the
      actor's role fits, and every line can be taken back from the balances. */
  lemma {:induction false} ReverseCreatedIff(db: Db, original: Id, requestId: string, actor: Id, name: string, id: Id, digest: Digest)
    requires LedgerOk(db) && FreshId(db, id)
    ensures Reverse(db, original, requestId, actor, name, id, digest).1.Created? <==>
              exists i :: 0 <= i < |db.journal| && db.journal[i].id == original
                          && Reversible(db, db.journal[i], requestId, actor, name)
  {
    AcceptedIsWellLinked(db.journal);
    FindSound(db.journal, original);
    if Find(db.journal, original).Some? {
      var o := Find(db.journal, original).value;
      var i :| 0 <= i < |db.journal| && db.journal[i] == o;
      assert forall k :: 0 <= k < |db.journal| && db.journal[k].id == original ==> k == i;
      ReverseOfIff(db, i, requestId, actor, name, id, digest);
    }
  }

  lemma ReverseOfIff(db: Db, i: nat, requestId: string, actor: Id, name: string, id: Id, digest: Digest)
    requires LedgerOk(db) && FreshId(db, id) && i < |db.journal|
    requires Find(db.journal, db.journal[i].id) == Some(db.journal[i])
    ensures Reverse(db, db.journal[i].id, requestId, actor, name, id, digest).1.Created?
       <==> Reversible(db, db.journal[i], requestId, actor, name)
  {
    var o := db.journal[i];
    var p := Payload(Reversal, o.destination, o.source, Some(o.id), requestId, LinesOf(o.lines));
    CreatedIff(db, p, Caller(actor, name, o.custody), id, digest);
    LinesSealed(db, i);
  }

  /** The lines of a committed movement already meet the limits. */
  lemma LinesSealed(db: Db, i: nat)
    requires LedgerOk(db) && i < |db.journal|
    ensures 1 <= |LinesOf(db.journal[i].lines)| <= 500
  {
    assert Accepted(db.journal[..i], db.journal[i]);
  }

  predicate Reversible(db: Db, o: Movement, requestId: string, actor: Id, name: string) {
    var p := Payload(Reversal, o.destination, o.source, Some(o.id), requestId, LinesOf(o.lines));
    var who := Caller(actor, name, o.custody);
    Granted(db, p, who) && Unused(db.journal, actor, Words(requestId, "")) && Stocked(db, p, who)
  }

  // ----- Archiving -----

  /** Archiving succeeds exactly for a known location without stock, reopening for any known one; then the location
      is active or not as asked, and nothing else changes. */
  lemma ArchivingIff(db: Db, location: Id, archived: bool)
    ensures SetArchived(db, location, archived).1.None? <==>
              location in db.locations && (archived ==> forall row :: row in db.tables.stock ==> row.1 != location)
    ensures SetArchived(db, location, archived).1.None? ==>
              && location in SetArchived(db, location, archived).0.locations
              && SetArchived(db, location, archived).0.locations[location] == !archived
              && (forall l :: l != location ==> (l in SetArchived(db, location, archived).0.locations <==> l in db.locations))
              && (forall l :: l in db.locations && l != location ==>
                    SetArchived(db, location, archived).0.locations[l] == db.locations[l])
    ensures SetArchived(db, location, archived).0 == db.(locations := SetArchived(db, location, archived).0.locations)
    ensures SetArchived(db, location, archived).1.Some? ==> SetArchived(db, location, archived).0 == db
  {
  }

  // ----- When two requests are the same -----

  /** The same request: same kind, positions, original and custody, the same words in the key, and the same lines in
      any order. */
  predicate SamePayload(p: Payload, custody: Option<Id>, q: Payload, custody': Option<Id>) {
    && p.kind == q.kind && p.source == q.source && p.destination == q.destination && p.original == q.original
    && custody == custody' && Words(p.requestId, "") == Words(q.requestId, "") && multiset(p.lines) == multiset(q.lines)
  }

  /** The fingerprinted forms are equal exactly for the same request. */
  lemma CanonIff(p: Payload, custody: Option<Id>, q: Payload, custody': Option<Id>)
    requires OneLinePerItem(p.lines)
    ensures Canon(p, custody) == Canon(q, custody') <==> SamePayload(p, custody, q, custody')
  {
    NormalizeByWords(p.requestId, q.requestId);
    SortOk(p.lines);
    SortOk(q.lines);
    if multiset(p.lines) == multiset(q.lines) {
      SortPermuted(p.lines, q.lines);
    }
  }

  /** After a movement was created, a further submission of its actor under the same words, in any later state, changes
      nothing; it returns the movement exactly when it is the same request, and is refused otherwise. */
  lemma {:induction false} ResubmissionIff(db: Db, p: Payload, who: Caller, id: Id, digest: Digest, later: Db, q: Payload, who': Caller,
                                           id': Id)
    requires LedgerOk(db) && Submit(db, p, who, id, digest).1.Created?
    requires LedgerOk(later) && Submit(db, p, who, id, digest).0.journal <= later.journal
    requires who'.actor == who.actor && Words(q.requestId, "") == Words(p.requestId, "")
    requires digest(Canon(p, who.custody)) == digest(Canon(q, who'.custody)) ==> Canon(p, who.custody) == Canon(q, who'.custody)
    ensures Submit(later, q, who', id', digest).0 == later
    ensures Submit(later, q, who', id', digest).1 == Replayed(Submit(db, p, who, id, digest).1.movement)
       <==> EarlyChecks(q, who').None? && SamePayload(p, who.custody, q, who'.custody)
    ensures !Submit(later, q, who', id', digest).1.Created?
  {
    SubmitDelivers(db, p, who, id, digest);
    SubmitCreated(db, p, who, id, digest);
    ChecksPassed(db, p, who);
    var m := Submit(db, p, who, id, digest).1.movement;
    assert later.journal[|db.journal|] == m;
    FindRequestOf(later.journal, |db.journal|);
    NormalizeByWords(p.requestId, q.requestId);
    CanonIff(p, who.custody, q, who'.custody);
  }
}
