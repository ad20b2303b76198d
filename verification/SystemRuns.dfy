/** Warehouse and identity requests mixed in one run: each commits as a whole, reading the other domain's
    committed rows. The interleaved counterparts are LedgerRuns and CustodyHolders. */
module SystemRuns {
  import opened Journal
  import opened Projections
  import opened Policy
  import opened Service
  import opened ServiceTheorems
  import Identity
  import Footprints

  /** `warehouse.users` is not stored: it is read from the registry. */
  datatype System = System(warehouse: Db, registry: Identity.Registry)

  datatype Request =
    | CreateMovement(p: Payload, who: Caller, id: Id)
    | ReverseMovement(original: Id, requestId: string, actor: Id, name: string, id: Id)
    | ArchiveLocation(location: Id, archived: bool)
    | AddLocation(location: Id)
    | SetItem(item: Id, active: bool)
    | BindReceipt(movement: Id)
    | Identify(context: Identity.Context, request: Identity.Request)

  function Standings(r: Identity.Registry): map<Id, Standing> {
    map u | u in r.users :: Standing(r.users[u].role, r.users[u].access)
  }

  /** The users with a custody row. */
  function HolderIds(t: Tables): set<Id> {
    set row | row in t.custody :: row.0
  }

  function View(s: System): Db {
    s.warehouse.(users := Standings(s.registry))
  }

  predicate Adjusted(journal: seq<Movement>, movement: Id) {
    exists k :: 0 <= k < |journal| && journal[k].original == Some(movement)
  }

  function Exec(s: System, r: Request, digest: Digest): System {
    var db := View(s);
    match r
    case CreateMovement(p, who, id) => s.(warehouse := Create(db, p, who, id, digest).0)
    case ReverseMovement(o, key, actor, name, id) => s.(warehouse := Reverse(db, o, key, actor, name, id, digest).0)
    case ArchiveLocation(l, archived) => s.(warehouse := SetArchived(db, l, archived).0)
    case AddLocation(l) => if l in db.locations then s else s.(warehouse := db.(locations := db.locations[l := true]))
    case SetItem(item, active) => s.(warehouse := db.(items := db.items[item := active]))
    case BindReceipt(m) => if Adjusted(db.journal, m) then s else s.(warehouse := db.(receipts := db.receipts + {m}))
    case Identify(c, ask) =>
      s.(registry := Identity.Exec(s.registry, c.(holders := HolderIds(s.warehouse.tables)), ask))
  }

  function Run(steps: seq<Request>, digest: Digest): System {
    if |steps| == 0 then System(Db([], Tables(map[], map[]), 1, map[], map[], {}, map[]), Identity.EMPTY)
    else Exec(Run(steps[..|steps| - 1], digest), steps[|steps| - 1], digest)
  }

  // ----- The invariant -----

  predicate ShelvesOpen(db: Db) {
    forall row :: row in db.tables.stock ==> row.1 in db.locations && db.locations[row.1]
  }

  predicate ReceiptsKept(db: Db) {
    forall m :: m in db.receipts ==> !Adjusted(db.journal, m)
  }

  ghost predicate SystemOk(s: System) {
    && LedgerOk(View(s)) && ShelvesOpen(View(s)) && ReceiptsKept(View(s))
    && Identity.RegistryOk(s.registry)
  }

  /** A created movement touches open locations only and adjusts no bound receipt. */
  lemma SubmitKeepsShelves(db: Db, p: Payload, who: Caller, id: Id, digest: Digest)
    requires LedgerOk(db) && ShelvesOpen(db) && ReceiptsKept(db)
    ensures ShelvesOpen(Submit(db, p, who, id, digest).0) && ReceiptsKept(Submit(db, p, who, id, digest).0)
  {
    if Submit(db, p, who, id, digest).1.Created? {
      SubmitCreated(db, p, who, id, digest);
      DraftReady(db, p, who, id, digest);
      var m := Draft(db, p, who, id, digest);
      BookKeeps(db, m);
      LocationsChecked(db, p, who);
      NewRowsOpen(db, m);
      NewLinkFree(db, m);
    } else {
      SubmitChangesNothing(db, p, who, id, digest);
    }
  }

  lemma LocationsChecked(db: Db, p: Payload, who: Caller)
    requires LateChecks(db, p, who).None?
    ensures p.source.Some? ==> p.source.value in db.locations && db.locations[p.source.value]
    ensures p.destination.Some? ==> p.destination.value in db.locations && db.locations[p.destination.value]
    ensures p.original.Some? ==> p.original.value !in db.receipts
  {
    assert CheckLocations(db, p).None?;
    assert CheckOriginal(db, p, who).None?;
  }

  lemma NewRowsOpen(db: Db, m: Movement)
    requires LedgerOk(db) && ShelvesOpen(db) && Book(db, m).1.Created?
    requires LedgerOk(Book(db, m).0) && Book(db, m).0.journal == db.journal + [m]
    requires m.source.Some? ==> m.source.value in db.locations && db.locations[m.source.value]
    requires m.destination.Some? ==> m.destination.value in db.locations && db.locations[m.destination.value]
    ensures ShelvesOpen(Book(db, m).0)
  {
    var after := Book(db, m).0;
    forall row | row in after.tables.stock ensures row.1 in db.locations && db.locations[row.1] {
      if row !in db.tables.stock {
        NewRowsTouched(db.journal, m, db.tables, after.tables, row);
      }
    }
  }

  /** A new stock row lies at a position of the movement. */
  lemma NewRowsTouched(journal: seq<Movement>, m: Movement, t: Tables, t': Tables, row: (Id, Id))
    requires Agree(journal, t) && Agree(journal + [m], t') && row in t'.stock && row !in t.stock
    ensures m.source == Some(row.1) || m.destination == Some(row.1)
  {
    var (item, location) := row;
    StockSnoc(journal, m, item, location);
    assert Row(t'.stock, (item, location)) == StockSum(journal + [m], item, location);
    assert Row(t.stock, (item, location)) == StockSum(journal, item, location);
  }

  lemma NewLinkFree(db: Db, m: Movement)
    requires ReceiptsKept(db) && Book(db, m).0.journal == db.journal + [m]
    requires m.original.Some? ==> m.original.value !in db.receipts
    ensures ReceiptsKept(Book(db, m).0)
  {
    var j := db.journal + [m];
    forall r | r in db.receipts ensures !Adjusted(j, r) {
      assert !Adjusted(db.journal, r);
      assert forall k :: 0 <= k < |db.journal| ==> j[k] == db.journal[k];
    }
  }

  /** The standing of a holder survives every identity transaction. */
  lemma HoldersSurvive(t: Tables, registry: Identity.Registry, c: Identity.Context, ask: Identity.Request)
    requires HoldersOk(t.custody, Standings(registry)) && c.holders == HolderIds(t)
    ensures HoldersOk(t.custody, Standings(Identity.Exec(registry, c, ask)))
  {
    forall row | row in t.custody ensures Approvable(Standings(Identity.Exec(registry, c, ask)), row.0) {
      assert Approvable(Standings(registry), row.0);
      Footprints.HoldersKept(registry, c, ask, row.0);
    }
  }

  lemma OtherUsers(db: Db, users: map<Id, Standing>)
    requires LedgerOk(db) && HoldersOk(db.tables.custody, users)
    ensures LedgerOk(db.(users := users))
  {
  }

  /** One submission in the system. */
  lemma SubmitKeepsSystem(s: System, p: Payload, who: Caller, id: Id, digest: Digest)
    requires SystemOk(s)
    ensures SystemOk(s.(warehouse := Submit(View(s), p, who, id, digest).0))
  {
    SubmitKeeps(View(s), p, who, id, digest);
    SubmitKeepsShelves(View(s), p, who, id, digest);
    SubmitKeepsUsers(View(s), p, who, id, digest);
  }

  lemma IdentityKeepsSystem(s: System, c: Identity.Context, ask: Identity.Request, digest: Digest)
    requires SystemOk(s)
    ensures SystemOk(Exec(s, Identify(c, ask), digest))
  {
    var c' := c.(holders := HolderIds(s.warehouse.tables));
    HoldersSurvive(s.warehouse.tables, s.registry, c', ask);
    OtherUsers(View(s), Standings(Identity.Exec(s.registry, c', ask)));
    Identity.ExecKeeps(s.registry, c', ask);
  }

  lemma ArchiveKeepsSystem(s: System, l: Id, archived: bool)
    requires SystemOk(s)
    ensures SystemOk(s.(warehouse := SetArchived(View(s), l, archived).0))
  {
  }

  lemma CreateKeepsSystem(s: System, p: Payload, who: Caller, id: Id, digest: Digest)
    requires SystemOk(s)
    ensures SystemOk(s.(warehouse := Create(View(s), p, who, id, digest).0))
  {
    if !p.kind.Reversal? {
      SubmitKeepsSystem(s, p, who, id, digest);
    }
  }

  lemma ReverseKeepsSystem(s: System, original: Id, key: string, actor: Id, name: string, id: Id, digest: Digest)
    requires SystemOk(s)
    ensures SystemOk(s.(warehouse := Reverse(View(s), original, key, actor, name, id, digest).0))
  {
    var found := Find(View(s).journal, original);
    if found.Some? {
      var p := Payload(Reversal, found.value.destination, found.value.source, Some(original), key, LinesOf(found.value.lines));
      SubmitKeepsSystem(s, p, Caller(actor, name, found.value.custody), id, digest);
    }
  }

  /** New locations, items and bindings leave journal and tables alone. */
  lemma SameLedger(db: Db, db': Db)
    requires LedgerOk(db) && db'.journal == db.journal && db'.tables == db.tables && db'.nextSeq == db.nextSeq && db'.users == db.users
    ensures LedgerOk(db')
  {
  }

  lemma PlainKeepsSystem(s: System, db: Db)
    requires SystemOk(s) && db.journal == s.warehouse.journal && db.tables == s.warehouse.tables
    requires db.nextSeq == s.warehouse.nextSeq && db.users == View(s).users
    requires ShelvesOpen(db) && ReceiptsKept(db)
    ensures SystemOk(s.(warehouse := db))
  {
    SameLedger(View(s), View(s.(warehouse := db)));
  }

  lemma ExecKeeps(s: System, r: Request, digest: Digest)
    requires SystemOk(s)
    ensures SystemOk(Exec(s, r, digest))
  {
    match r
    case CreateMovement(p, who, id) => CreateKeepsSystem(s, p, who, id, digest);
    case ReverseMovement(o, key, actor, name, id) => ReverseKeepsSystem(s, o, key, actor, name, id, digest);
    case ArchiveLocation(l, archived) => ArchiveKeepsSystem(s, l, archived);
    case Identify(c, ask) => IdentityKeepsSystem(s, c, ask, digest);
    case AddLocation(l) => PlainKeepsSystem(s, View(s).(locations := View(s).locations[l := true]));
    case SetItem(item, active) => PlainKeepsSystem(s, View(s).(items := View(s).items[item := active]));
    case BindReceipt(m) =>
      if !Adjusted(View(s).journal, m) {
        PlainKeepsSystem(s, View(s).(receipts := View(s).receipts + {m}));
      }
  }

  lemma SubmitKeepsUsers(db: Db, p: Payload, who: Caller, id: Id, digest: Digest)
    ensures Submit(db, p, who, id, digest).0.users == db.users
  {
  }

  /** Over every run mixing movements, reversals, archiving, receipt bindings and identity requests (blocking,
      role changes, resets, rotation, recovery login): the tables are the journal's sums, archived locations
      hold nothing, bound receipts stay unadjusted, the registry is in order, and whoever has a custody row
      is APPROVED and ENGINEER or SENIOR_ENGINEER. */
  lemma {:induction false} MixedRunsKeep(steps: seq<Request>, digest: Digest)
    ensures SystemOk(Run(steps, digest))
    ensures var s := Run(steps, digest);
            forall row :: row in s.warehouse.tables.custody ==>
              && row.0 in s.registry.users && s.registry.users[row.0].access == Approved
              && (s.registry.users[row.0].role == Engineer || s.registry.users[row.0].role == SeniorEngineer)
  {
    if |steps| != 0 {
      MixedRunsKeep(steps[..|steps| - 1], digest);
      ExecKeeps(Run(steps[..|steps| - 1], digest), steps[|steps| - 1], digest);
    }
    var s := Run(steps, digest);
    assert HoldersOk(View(s).tables.custody, Standings(s.registry));
    forall row | row in s.warehouse.tables.custody
      ensures row.0 in s.registry.users && Eligible(Standing(s.registry.users[row.0].role, s.registry.users[row.0].access))
    {
      assert Approvable(Standings(s.registry), row.0);
    }
  }

  /** A receipt is bound exactly if it is not adjusted; locations and items are added and set as asked; identity requests
      run on the registry with the committed holders; nothing else changes. */
  lemma StepsTakeEffect(s: System, r: Request, digest: Digest)
    ensures var s' := Exec(s, r, digest);
            match r
            case BindReceipt(m) =>
              s'.registry == s.registry && s'.warehouse.journal == s.warehouse.journal
              && s'.warehouse.receipts == if (forall k :: 0 <= k < |s.warehouse.journal| ==> s.warehouse.journal[k].original != Some(m))
                                          then s.warehouse.receipts + {m} else s.warehouse.receipts
            case AddLocation(l) =>
              s'.registry == s.registry && l in s'.warehouse.locations
              && (l in s.warehouse.locations ==> s'.warehouse.locations == s.warehouse.locations)
              && (l !in s.warehouse.locations ==> s'.warehouse.locations == s.warehouse.locations[l := true])
            case SetItem(item, active) => s'.registry == s.registry && s'.warehouse.items == s.warehouse.items[item := active]
            case Identify(c, ask) =>
              && s'.warehouse == s.warehouse
              && s'.registry == Identity.Exec(s.registry, c.(holders := set row | row in s.warehouse.tables.custody :: row.0), ask)
            case CreateMovement(p, who, id) =>
              s'.registry == s.registry && s'.warehouse == Create(View(s), p, who, id, digest).0
            case ReverseMovement(o, key, actor, name, id) =>
              s'.registry == s.registry && s'.warehouse == Reverse(View(s), o, key, actor, name, id, digest).0
            case ArchiveLocation(l, archived) =>
              s'.registry == s.registry && s'.warehouse == SetArchived(View(s), l, archived).0
  {
  }
}
