/** Creating and reversing a movement as one transaction: the checks of the service in their order, the
    database's own checks behind them, and the projection refresh. */
module Service {
  import opened Journal
  import opened Reversals
  import opened Projections
  import opened Idempotency
  import opened Policy

  datatype Payload = Payload(
    kind: MovementType, source: Option<Id>, destination: Option<Id>, original: Option<Id>,
    requestId: string, lines: seq<Line>)

  /** The fingerprinted form: normalised request id, lines in item order, custody user included. */
  datatype Canonical = Canonical(payload: Payload, custody: Option<Id>)

  /** SHA-256 of the canonical JSON, taken as given. */
  type Digest = Canonical -> string

  datatype Caller = Caller(actor: Id, name: string, custody: Option<Id>)

  /** items and locations map an id to whether it is active; receipts are the movements bound to a
      completed procurement request. */
  datatype Db = Db(journal: seq<Movement>, tables: Tables, nextSeq: nat,
                   items: map<Id, bool>, locations: map<Id, bool>, receipts: set<Id>, users: map<Id, Standing>)

  datatype Refusal =
    | UseReversalEndpoint | CustodyTypeInvalid | CustodyActorMismatch | KeyRequired | KeyTooLong | PayloadConflict
    | CustodyUserNotFound | CustodyUserNotApproved | SameLocation | PositionsInvalid | LinkInvalid
    | ReceiptProtected | MovementNotFound | TargetInvalid | CustodyCorrection | ReversalCustodyMismatch | AlreadyReversed
    | LocationNotFound | LocationArchived | RepeatedItem | ItemNotFound | ItemArchived | CorrectionUnrelated
    | NameInvalid | LocationNotEmpty | LineRefused(error: LineError)
    | LineCountRejected | ActorRejected | HeaderRejected | LinesRejected | ProjectionFailed

  datatype Answer = Created(movement: Movement) | Replayed(movement: Movement) | Refused(reason: Refusal)

  // ----- The checks, in order -----

  function CheckCaller(p: Payload, who: Caller): Option<Refusal> {
    if p.kind.Reversal? || who.custody.None? then None
    else if !p.kind.Issue? && !p.kind.Return? then Some(CustodyTypeInvalid)
    else if who.custody.value != who.actor then Some(CustodyActorMismatch)
    else None
  }

  function CheckText(text: string, limit: nat, blank: Refusal, long: Refusal): Option<Refusal> {
    if Normalize(text) == "" then Some(blank)
    else if |Normalize(text)| > limit then Some(long)
    else None
  }

  function Canon(p: Payload, custody: Option<Id>): Canonical {
    Canonical(p.(requestId := Normalize(p.requestId), lines := SortLines(p.lines)), custody)
  }

  /** _existing_idempotent_result */
  function FindRequest(journal: seq<Movement>, actor: Id, key: string): Option<Movement> {
    if |journal| == 0 then None
    else if journal[0].actor == actor && journal[0].requestId == key then Some(journal[0])
    else FindRequest(journal[1..], actor, key)
  }

  predicate Approvable(users: map<Id, Standing>, user: Id) {
    user in users && Eligible(users[user])
  }

  function CheckHolder(db: Db, p: Payload, who: Caller): Option<Refusal> {
    if who.custody.None? then None
    else if who.custody.value !in db.users then Some(CustodyUserNotFound)
    else if !p.kind.Reversal? && !Approvable(db.users, who.custody.value) then Some(CustodyUserNotApproved)
    else None
  }

  /** validate_positions */
  function ValidatePositions(p: Payload): Option<Refusal> {
    var shape := (p.source.Some?, p.destination.Some?);
    var allowed := match p.kind
                   case Receipt | Return => shape == (false, true)
                   case Issue | WriteOff => shape == (true, false)
                   case Transfer => shape == (true, true)
                   case Correction | Reversal => shape != (false, false);
    if p.source.Some? && p.source == p.destination then Some(SameLocation)
    else if !allowed then Some(PositionsInvalid)
    else if Linked(p.kind) != p.original.Some? then Some(LinkInvalid)
    else None
  }

  predicate Reversed(journal: seq<Movement>, original: Id) {
    exists k :: 0 <= k < |journal| && journal[k].kind.Reversal? && journal[k].original == Some(original)
  }

  function CheckOriginal(db: Db, p: Payload, who: Caller): Option<Refusal> {
    if p.original.None? then None
    else if p.original.value in db.receipts then Some(ReceiptProtected)
    else
      var found := Find(db.journal, p.original.value);
      if found.None? then Some(MovementNotFound)
      else if found.value.kind.Reversal? then Some(TargetInvalid)
      else if p.kind.Correction? && found.value.custody.Some? then Some(CustodyCorrection)
      else if p.kind.Reversal? && who.custody != found.value.custody then Some(ReversalCustodyMismatch)
      else if p.kind.Reversal? && Reversed(db.journal, p.original.value) then Some(AlreadyReversed)
      else if p.kind.Reversal? && who.custody.Some? && ServiceCustodySign(p.kind, found) > 0
              && !Approvable(db.users, who.custody.value) then Some(CustodyUserNotApproved)
      else None
  }

  function CheckLocations(db: Db, p: Payload): Option<Refusal> {
    if (p.source.Some? && p.source.value !in db.locations) || (p.destination.Some? && p.destination.value !in db.locations)
    then Some(LocationNotFound)
    else if (p.source.Some? && !db.locations[p.source.value]) || (p.destination.Some? && !db.locations[p.destination.value])
    then Some(LocationArchived)
    else None
  }

  function CheckItems(db: Db, p: Payload): Option<Refusal> {
    if !OneLinePerItem(p.lines) then Some(RepeatedItem)
    else if exists k :: 0 <= k < |p.lines| && p.lines[k].item !in db.items then Some(ItemNotFound)
    else if (p.kind.Receipt? || p.kind.Issue?)
            && exists k :: 0 <= k < |p.lines| && p.lines[k].item in db.items && !db.items[p.lines[k].item]
    then Some(ItemArchived)
    else None
  }

  function CheckCorrection(db: Db, p: Payload): Option<Refusal> {
    if !p.kind.Correction? || p.original.None? || Find(db.journal, p.original.value).None? then None
    else
      var o := Find(db.journal, p.original.value).value;
      if !(Concerns(p.source, o) || Concerns(p.destination, o))
         || !(forall k :: 0 <= k < |p.lines| ==> p.lines[k].item in Items(o.lines))
      then Some(CorrectionUnrelated)
      else None
  }

  function Or(first: Option<Refusal>, second: Option<Refusal>): Option<Refusal> {
    if first.Some? then first else second
  }

  function EarlyChecks(p: Payload, who: Caller): Option<Refusal> {
    Or(CheckCaller(p, who), CheckText(p.requestId, 128, KeyRequired, KeyTooLong))
  }

  function LateChecks(db: Db, p: Payload, who: Caller): Option<Refusal> {
    Or(CheckHolder(db, p, who), Or(ValidatePositions(p), Or(CheckOriginal(db, p, who), Or(CheckLocations(db, p),
    Or(CheckItems(db, p), Or(CheckCorrection(db, p), CheckText(who.name, 579, NameInvalid, NameInvalid)))))))
  }

  // ----- The row and what the database says to it -----

  function Rows(lines: seq<Line>): seq<LineRow> {
    seq(|lines|, k requires 0 <= k < |lines| => LineRow(k + 1, lines[k].item, lines[k].quantity))
  }

  function Draft(db: Db, p: Payload, who: Caller, id: Id, digest: Digest): Movement {
    Movement(id, db.nextSeq, p.kind, |p.lines|, who.actor, who.custody, p.source, p.destination, p.original,
             Normalize(p.requestId), digest(Canon(p, who.custody)), Rows(SortLines(p.lines)))
  }

  /** validate_movement_custody, as far as it concerns the actor's role */
  predicate ActorAccepted(users: map<Id, Standing>, m: Movement) {
    (m.kind.Issue? || m.kind.Return?) && m.actor in users ==>
      var role := users[m.actor].role;
      && (role == Engineer || role == SeniorEngineer ==> m.custody == Some(m.actor))
      && (role == Admin || role == Owner ==> m.custody.None?)
  }

  /** CHECK constraints, unique indexes and row triggers on the header. */
  function CheckHeader(db: Db, m: Movement): Option<Refusal> {
    if !(1 <= m.lineCount <= 500) then Some(LineCountRejected)
    else if !ActorAccepted(db.users, m) then Some(ActorRejected)
    else if !PositionsAllowed(m) || Linked(m.kind) != m.original.Some? || !HeaderAccepted(db.journal, m)
            || !CustodyAccepted(db.journal, m) || !NotReversedTwice(db.journal, m)
            || (exists k :: 0 <= k < |db.journal| && db.journal[k].id == m.id)
    then Some(HeaderRejected)
    else None
  }

  predicate LinesAccepted(journal: seq<Movement>, m: Movement) {
    DistinctItems(m.lines) && forall k :: 0 <= k < |m.lines| ==> LineAccepted(journal, m, m.lines[k])
  }

  function SignOf(journal: seq<Movement>, m: Movement): int {
    ServiceCustodySign(m.kind, if m.original.Some? then Find(journal, m.original.value) else None)
  }

  function Holders(users: map<Id, Standing>): Id -> bool {
    u => Approvable(users, u)
  }

  /** _create_movement. A sequence number drawn by a transaction that fails later is lost. */
  function Submit(db: Db, p: Payload, who: Caller, id: Id, digest: Digest): (Db, Answer) {
    var key := Normalize(p.requestId);
    if EarlyChecks(p, who).Some? then (db, Refused(EarlyChecks(p, who).value))
    else if FindRequest(db.journal, who.actor, key).Some? then
      var existing := FindRequest(db.journal, who.actor, key).value;
      (db, if existing.fingerprint == digest(Canon(p, who.custody)) then Replayed(existing) else Refused(PayloadConflict))
    else if LateChecks(db, p, who).Some? then (db, Refused(LateChecks(db, p, who).value))
    else Book(db, Draft(db, p, who, id, digest))
  }

  function Book(db: Db, m: Movement): (Db, Answer) {
    var burnt := db.(nextSeq := db.nextSeq + 1);
    var error := CheckLines(db.tables, m, SignOf(db.journal, m), m.lines);
    if CheckHeader(db, m).Some? then (burnt, Refused(CheckHeader(db, m).value))
    else if error.Some? then (burnt, Refused(LineRefused(error.value)))
    else if !LinesAccepted(db.journal, m) then (burnt, Refused(LinesRejected))
    else
      var after := RefreshAll(db.journal + [m], db.tables, m.id, m.lines, Holders(db.users));
      if !after.Ok? then (burnt, Refused(ProjectionFailed))
      else (burnt.(journal := db.journal + [m], tables := after.tables), Created(m))
  }

  /** create_movement */
  function Create(db: Db, p: Payload, who: Caller, id: Id, digest: Digest): (Db, Answer) {
    if p.kind.Reversal? then (db, Refused(UseReversalEndpoint)) else Submit(db, p, who, id, digest)
  }

  function LinesOf(rows: seq<LineRow>): seq<Line> {
    seq(|rows|, k requires 0 <= k < |rows| => Line(rows[k].item, rows[k].quantity))
  }

  /** reverse_movement */
  function Reverse(db: Db, original: Id, requestId: string, actor: Id, name: string, id: Id, digest: Digest): (Db, Answer) {
    var found := Find(db.journal, original);
    if found.None? then (db, Refused(MovementNotFound))
    else
      var o := found.value;
      Submit(db, Payload(Reversal, o.destination, o.source, Some(original), requestId, LinesOf(o.lines)),
             Caller(actor, name, o.custody), id, digest)
  }

  // ----- The invariant of committed states -----

  predicate OnePerRequest(journal: seq<Movement>) {
    forall i, k :: 0 <= i < k < |journal| ==> journal[i].actor != journal[k].actor || journal[i].requestId != journal[k].requestId
  }

  predicate HoldersOk(custody: map<(Id, Id), int>, users: map<Id, Standing>) {
    forall row :: row in custody ==> Approvable(users, row.0)
  }

  ghost predicate LedgerOk(db: Db) {
    && AcceptedJournal(db.journal)
    && Agree(db.journal, db.tables)
    && OnePerRequest(db.journal)
    && (forall k :: 0 <= k < |db.journal| ==> db.journal[k].seqNo < db.nextSeq)
    && HoldersOk(db.tables.custody, db.users)
  }

  /** set_location_archived */
  function SetArchived(db: Db, location: Id, archived: bool): (Db, Option<Refusal>) {
    if location !in db.locations then (db, Some(LocationNotFound))
    else if archived && (exists row :: row in db.tables.stock && row.1 == location) then (db, Some(LocationNotEmpty))
    else (db.(locations := db.locations[location := !archived]), None)
  }
}
