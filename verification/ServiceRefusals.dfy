/** What each refusal tells the caller. */
module ServiceRefusals {
  import opened Journal
  import opened Reversals
  import opened Projections
  import opened Idempotency
  import opened Booking
  import opened Service
  import opened ServiceTheorems
  import opened ServiceEffects

  /** A committed movement with the id of the payload's original. */
  predicate IsTarget(db: Db, p: Payload, i: int) {
    0 <= i < |db.journal| && p.original == Some(db.journal[i].id)
  }

  predicate Unknown(db: Db, position: Option<Id>) {
    position.Some? && position.value !in db.locations
  }

  predicate Closed(db: Db, position: Option<Id>) {
    position.Some? && position.value in db.locations && !db.locations[position.value]
  }

  /** What is wrong with one line. */
  predicate LineProblem(db: Db, p: Payload, who: Caller, error: LineError, line: Line) {
    var held := if who.custody.Some? then Row(db.tables.custody, (who.custody.value, line.item)) else 0;
    match error
    case QuantityNotPositive => line.quantity <= 0
    case InsufficientStock => p.source.Some? && Row(db.tables.stock, (line.item, p.source.value)) < line.quantity
    case InsufficientCustody => who.custody.Some? && held + PayloadPerUnit(db.journal, p) * line.quantity < 0
    case QuantityOverflow =>
      || (p.destination.Some? && Row(db.tables.stock, (line.item, p.destination.value)) + line.quantity > MAX_QUANTITY)
      || (who.custody.Some? && held + PayloadPerUnit(db.journal, p) * line.quantity > MAX_QUANTITY)
  }

  /** The meaning of a refusal, in terms of the request and the rows. */
  ghost predicate Meaning(db: Db, p: Payload, who: Caller, digest: Digest, reason: Refusal) {
    match reason
    case UseReversalEndpoint => p.kind.Reversal?
    case CustodyTypeInvalid => who.custody.Some? && !p.kind.Issue? && !p.kind.Return? && !p.kind.Reversal?
    case CustodyActorMismatch => who.custody.Some? && (p.kind.Issue? || p.kind.Return?) && who.custody.value != who.actor
    case KeyRequired => Words(p.requestId, "") == []
    case KeyTooLong => |Join(Words(p.requestId, ""))| > 128
    case PayloadConflict => exists k :: 0 <= k < |db.journal| && Conflicts(db.journal[k], p, who, digest)
    case CustodyUserNotFound => who.custody.Some? && who.custody.value !in db.users
    case CustodyUserNotApproved => who.custody.Some? && !Holder(db, who.custody.value)
    case SameLocation => p.source.Some? && p.source == p.destination
    case PositionsInvalid => !Positioned(p.kind, p.source, p.destination)
    case LinkInvalid => (p.kind.Correction? || p.kind.Reversal?) != p.original.Some?
    case ReceiptProtected => p.original.Some? && p.original.value in db.receipts
    case MovementNotFound => p.original.Some? && forall i :: 0 <= i < |db.journal| ==> db.journal[i].id != p.original.value
    case TargetInvalid => exists i :: IsTarget(db, p, i) && db.journal[i].kind.Reversal?
    case CustodyCorrection => p.kind.Correction? && exists i :: IsTarget(db, p, i) && db.journal[i].custody.Some?
    case ReversalCustodyMismatch => p.kind.Reversal? && exists i :: IsTarget(db, p, i) && db.journal[i].custody != who.custody
    case AlreadyReversed =>
      p.kind.Reversal? && exists i :: 0 <= i < |db.journal| && db.journal[i].kind.Reversal? && db.journal[i].original == p.original
    case LocationNotFound => Unknown(db, p.source) || Unknown(db, p.destination)
    case LocationArchived => Closed(db, p.source) || Closed(db, p.destination)
    case RepeatedItem => exists i, k :: 0 <= i < k < |p.lines| && p.lines[i].item == p.lines[k].item
    case ItemNotFound => exists k :: 0 <= k < |p.lines| && p.lines[k].item !in db.items
    case ItemArchived =>
      (p.kind.Receipt? || p.kind.Issue?) && exists k :: 0 <= k < |p.lines| && p.lines[k].item in db.items && !db.items[p.lines[k].item]
    case CorrectionUnrelated => p.kind.Correction? && exists i :: IsTarget(db, p, i) && !TargetGranted(db, p, who, db.journal[i])
    case NameInvalid => !TextGranted(who.name, 579)
    case LineRefused(error) => exists k :: 0 <= k < |p.lines| && LineProblem(db, p, who, error, p.lines[k])
    case LineCountRejected => |p.lines| == 0 || |p.lines| > 500
    case ActorRejected => !RoleFits(db, p, who)
    case _ => false
  }

  predicate Conflicts(m: Movement, p: Payload, who: Caller, digest: Digest) {
    m.actor == who.actor && m.requestId == Join(Words(p.requestId, "")) && m.fingerprint != digest(Canon(p, who.custody))
  }

  ghost predicate Means(db: Db, p: Payload, who: Caller, digest: Digest, refusal: Option<Refusal>) {
    refusal.Some? ==> Meaning(db, p, who, digest, refusal.value)
  }

  // ----- Check by check -----

  lemma TextMeans(db: Db, p: Payload, who: Caller, digest: Digest)
    ensures Means(db, p, who, digest, CheckText(p.requestId, 128, KeyRequired, KeyTooLong))
    ensures Means(db, p, who, digest, CheckText(who.name, 579, NameInvalid, NameInvalid))
  {
    TextIff(who.name, 579, NameInvalid, NameInvalid);
    WordsAreWords(p.requestId, "");
    JoinEmpty(Words(p.requestId, ""));
  }

  lemma CallerMeans(db: Db, p: Payload, who: Caller, digest: Digest)
    ensures Means(db, p, who, digest, CheckCaller(p, who)) && Means(db, p, who, digest, CheckHolder(db, p, who))
  {
  }

  lemma PositionsMean(db: Db, p: Payload, who: Caller, digest: Digest)
    ensures Means(db, p, who, digest, ValidatePositions(p)) && Means(db, p, who, digest, CheckLocations(db, p))
  {
  }

  lemma OriginalMeans(db: Db, p: Payload, who: Caller, digest: Digest)
    ensures Means(db, p, who, digest, CheckOriginal(db, p, who))
  {
    if p.original.Some? {
      FindSound(db.journal, p.original.value);
      if Find(db.journal, p.original.value).Some? {
        var i :| 0 <= i < |db.journal| && db.journal[i] == Find(db.journal, p.original.value).value;
        assert IsTarget(db, p, i);
      }
    }
  }

  lemma ItemsMean(db: Db, p: Payload, who: Caller, digest: Digest)
    ensures Means(db, p, who, digest, CheckItems(db, p))
  {
  }

  lemma CorrectionMeans(db: Db, p: Payload, who: Caller, digest: Digest)
    ensures Means(db, p, who, digest, CheckCorrection(db, p))
  {
    if p.kind.Correction? && p.original.Some? && Find(db.journal, p.original.value).Some? {
      FindSound(db.journal, p.original.value);
      var o := Find(db.journal, p.original.value).value;
      var i :| 0 <= i < |db.journal| && db.journal[i] == o;
      assert IsTarget(db, p, i);
      CorrectionIff(db, p, o);
    }
  }

  lemma ChecksMean(db: Db, p: Payload, who: Caller, digest: Digest)
    ensures Means(db, p, who, digest, EarlyChecks(p, who)) && Means(db, p, who, digest, LateChecks(db, p, who))
  {
    TextMeans(db, p, who, digest);
    CallerMeans(db, p, who, digest);
    PositionsMean(db, p, who, digest);
    OriginalMeans(db, p, who, digest);
    ItemsMean(db, p, who, digest);
    CorrectionMeans(db, p, who, digest);
  }

  lemma {:induction false} ConflictMeans(journal: seq<Movement>, actor: Id, key: string)
    requires FindRequest(journal, actor, key).Some?
    ensures var m := FindRequest(journal, actor, key).value;
            m.actor == actor && m.requestId == key && exists k :: 0 <= k < |journal| && journal[k] == m
  {
    if journal[0].actor == actor && journal[0].requestId == key {
      assert journal[0] == FindRequest(journal, actor, key).value;
    } else {
      ConflictMeans(journal[1..], actor, key);
      var k :| 0 <= k < |journal[1..]| && journal[1..][k] == FindRequest(journal[1..], actor, key).value;
      assert journal[k + 1] == journal[1..][k];
    }
  }

  /** The first line error names a problem of some line of the payload. */
  lemma {:induction false} LineErrorAt(seen: Tables, m: Movement, sign: int, lines: seq<LineRow>) returns (k: nat)
    requires CheckLines(seen, m, sign, lines).Some?
    ensures k < |lines| && CheckLine(seen, m, sign, lines[k]) == CheckLines(seen, m, sign, lines)
  {
    if CheckLines(seen, m, sign, lines[..|lines| - 1]).Some? {
      k := LineErrorAt(seen, m, sign, lines[..|lines| - 1]);
    } else {
      k := |lines| - 1;
    }
  }

  lemma LineErrorMeans(db: Db, p: Payload, who: Caller, m: Movement, line: LineRow)
    requires RowsInRange(db.tables.stock) && Names(m, p, who) && CheckLine(db.tables, m, PerUnit(db.journal, m), line).Some?
    ensures LineProblem(db, p, who, CheckLine(db.tables, m, PerUnit(db.journal, m), line).value, Line(line.item, line.quantity))
  {
    assert PerUnit(db.journal, m) == PayloadPerUnit(db.journal, p);
    if m.source.Some? {
      assert InRange(Row(db.tables.stock, (line.item, m.source.value)));
    }
    if m.destination.Some? {
      assert InRange(Row(db.tables.stock, (line.item, m.destination.value)));
    }
  }

  lemma LinesMean(db: Db, p: Payload, who: Caller, m: Movement, digest: Digest)
    requires RowsInRange(db.tables.stock) && Names(m, p, who)
    requires CheckLines(db.tables, m, PerUnit(db.journal, m), m.lines).Some?
    ensures Meaning(db, p, who, digest, LineRefused(CheckLines(db.tables, m, PerUnit(db.journal, m), m.lines).value))
  {
    var i := LineErrorAt(db.tables, m, PerUnit(db.journal, m), m.lines);
    LineErrorMeans(db, p, who, m, m.lines[i]);
    assert LinesOf(m.lines)[i] in multiset(LinesOf(m.lines));
    assert LinesOf(m.lines)[i] in multiset(p.lines);
    var k :| 0 <= k < |p.lines| && p.lines[k] == LinesOf(m.lines)[i];
    assert LineProblem(db, p, who, CheckLines(db.tables, m, PerUnit(db.journal, m), m.lines).value, p.lines[k]);
  }

  lemma BookMeans(db: Db, p: Payload, who: Caller, m: Movement, digest: Digest)
    requires LedgerOk(db) && Names(m, p, who) && Ready(db, m)
    requires CheckHeader(db, m) != Some(HeaderRejected) && LinesAccepted(db.journal, m)
    requires Book(db, m).1.Refused?
    ensures Meaning(db, p, who, digest, Book(db, m).1.reason)
  {
    HeaderReasons(db, m);
    BookPassesRules(db, m);
    if CheckHeader(db, m).None? {
      AcceptedIsWellLinked(db.journal);
      HeaderSign(db.journal, m);
      if CheckLines(db.tables, m, SignOf(db.journal, m), m.lines).Some? {
        LinesMean(db, p, who, m, digest);
      }
    }
  }

  /** Every refusal says what it means: the condition it names holds of the request and the rows. */
  lemma {:induction false} RefusalMeans(db: Db, p: Payload, who: Caller, id: Id, digest: Digest)
    requires LedgerOk(db) && FreshId(db, id) && MirrorsOriginal(db, p)
    requires Submit(db, p, who, id, digest).1.Refused?
    ensures Meaning(db, p, who, digest, Submit(db, p, who, id, digest).1.reason)
  {
    ChecksMean(db, p, who, digest);
    var key := Normalize(p.requestId);
    if EarlyChecks(p, who).None? {
      if FindRequest(db.journal, who.actor, key).Some? {
        ConflictMeans(db.journal, who.actor, key);
      } else if LateChecks(db, p, who).None? {
        ChecksPassed(db, p, who);
        HeaderPasses(db, p, who, id, digest);
        LinesPass(db, p, who, id, digest);
        DraftReady(db, p, who, id, digest);
        DraftNames(db, p, who, id, digest);
        BookMeans(db, p, who, Draft(db, p, who, id, digest), digest);
      }
    }
  }

  /** The endpoint for other kinds refuses a reversal as such, and otherwise as above. */
  lemma CreateRefusalMeans(db: Db, p: Payload, who: Caller, id: Id, digest: Digest)
    requires LedgerOk(db) && FreshId(db, id) && Create(db, p, who, id, digest).1.Refused?
    ensures Meaning(db, p, who, digest, Create(db, p, who, id, digest).1.reason)
  {
    if !p.kind.Reversal? {
      RefusalMeans(db, p, who, id, digest);
    }
  }

  /** A refusal leaves journal, tables and every other row alone; only a refusal after the header was numbered loses the
      number. */
  lemma RefusalKeeps(db: Db, p: Payload, who: Caller, id: Id, digest: Digest)
    requires Submit(db, p, who, id, digest).1.Refused?
    ensures Submit(db, p, who, id, digest).0
         == if Submit(db, p, who, id, digest).1.reason.LineRefused? || Submit(db, p, who, id, digest).1.reason
                 in {LineCountRejected, ActorRejected, HeaderRejected, LinesRejected, ProjectionFailed}
            then db.(nextSeq := db.nextSeq + 1) else db
  {
    CheckKinds(db, p, who);
  }

  /** The service's own checks come before the header. */
  predicate EarlierThanHeader(refusal: Option<Refusal>) {
    refusal.Some? ==>
      !refusal.value.LineRefused?
      && refusal.value !in {LineCountRejected, ActorRejected, HeaderRejected, LinesRejected, ProjectionFailed}
  }

  lemma CheckKinds(db: Db, p: Payload, who: Caller)
    ensures EarlierThanHeader(EarlyChecks(p, who)) && EarlierThanHeader(LateChecks(db, p, who))
  {
    RequestKinds(db, p, who);
    RowKinds(db, p, who);
  }

  lemma RequestKinds(db: Db, p: Payload, who: Caller)
    ensures EarlierThanHeader(CheckCaller(p, who)) && EarlierThanHeader(CheckHolder(db, p, who)) && EarlierThanHeader(ValidatePositions(p))
    ensures EarlierThanHeader(CheckText(p.requestId, 128, KeyRequired, KeyTooLong))
    ensures EarlierThanHeader(CheckText(who.name, 579, NameInvalid, NameInvalid))
  {
  }

  lemma RowKinds(db: Db, p: Payload, who: Caller)
    ensures EarlierThanHeader(CheckOriginal(db, p, who)) && EarlierThanHeader(CheckLocations(db, p))
    ensures EarlierThanHeader(CheckItems(db, p)) && EarlierThanHeader(CheckCorrection(db, p))
  {
  }
}
