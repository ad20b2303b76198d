/** The movement feed: keyset pages over a journal whose sequence numbers commit out of order, cut to the
    transactions visible in the snapshot taken with the first page. */
module Feed {
  import opened Journal

  /** A movement row with its inserting transaction. Transaction ids are 64 bits wide; the system column
      xmin shows the low 32 bits. */
  datatype Entry = Entry(m: Movement, occurredAt: int, xid: nat)

  const EPOCH := 4294967296 // 2^32

  function Xmin(e: Entry): nat {
    e.xid % EPOCH
  }

  /** Filters over immutable journal fields. */
  datatype Filter = Filter(kind: Option<MovementType>, item: Option<Id>, actor: Option<Id>, location: Option<Id>,
                           since: Option<int>, until: Option<int>)

  predicate Matches(f: Filter, e: Entry) {
    && (f.kind.Some? ==> e.m.kind == f.kind.value)
    && (f.item.Some? ==> Touches(e.m, f.item.value))
    && (f.actor.Some? ==> e.m.actor == f.actor.value)
    && (f.location.Some? ==> e.m.source == f.location || e.m.destination == f.location)
    && (f.since.Some? ==> e.occurredAt >= f.since.value)
    && (f.until.Some? ==> e.occurredAt < f.until.value)
  }

  // ----- The database: rows are listed in descending sequence, the order every page asks for -----

  datatype Db = Db(rows: seq<Entry>, live: map<nat, Option<Entry>>, nextXid: nat, nextSeq: nat)

  datatype Step =
    | Begin
    | Insert(xid: nat, m: Movement, occurredAt: int)
    | Commit(xid: nat)
    | Abort(xid: nat)

  predicate Descending(rows: seq<Entry>) {
    forall i, k :: 0 <= i < k < |rows| ==> rows[i].m.seqNo > rows[k].m.seqNo
  }

  function Place(rows: seq<Entry>, e: Entry): seq<Entry> {
    if |rows| == 0 || e.m.seqNo > rows[0].m.seqNo then [e] + rows else [rows[0]] + Place(rows[1..], e)
  }

  /** The database stops handing out ids half a cycle past the oldest running transaction. */
  const HALF_CYCLE := 2147483648 // 2^31

  predicate MayBegin(db: Db) {
    forall x :: x in db.live ==> db.nextXid < x + HALF_CYCLE
  }

  /** A transaction takes its id, inserts one movement, and commits or aborts; others interleave freely. */
  function Exec(db: Db, s: Step): Db {
    match s
    case Begin => if !MayBegin(db) then db else db.(live := db.live[db.nextXid := None], nextXid := db.nextXid + 1)
    case Insert(xid, m, at) =>
      if xid !in db.live || db.live[xid].Some? then db
      else db.(live := db.live[xid := Some(Entry(m.(seqNo := db.nextSeq), at, xid))], nextSeq := db.nextSeq + 1)
    case Commit(xid) =>
      if xid !in db.live then db
      else db.(rows := if db.live[xid].Some? then Place(db.rows, db.live[xid].value) else db.rows, live := db.live - {xid})
    case Abort(xid) => db.(live := db.live - {xid})
  }

  function ExecAll(db: Db, steps: seq<Step>): Db {
    if |steps| == 0 then db else Exec(ExecAll(db, steps[..|steps| - 1]), steps[|steps| - 1])
  }

  /** The first transaction ids are reserved. */
  const START := Db([], map[], 3, 1)

  /** pg_current_snapshot: xmin is the oldest running transaction, or xmax if none runs; nothing from xmax on
      has started. */
  datatype Snapshot = Snapshot(xmin: nat, xmax: nat, inProgress: set<nat>)

  predicate SnapshotOf(db: Db, snap: Snapshot) {
    && snap.xmin <= snap.xmax == db.nextXid && snap.inProgress == db.live.Keys
    && (forall x :: x in db.live ==> snap.xmin <= x) && (snap.xmin in db.live || snap.xmin == snap.xmax)
  }

  /** pg_visible_in_snapshot */
  predicate Visible(snap: Snapshot, xid: nat) {
    xid < snap.xmin || (xid < snap.xmax && xid !in snap.inProgress)
  }

  /** The snapshot condition of the page query: the row's xmin cast to a transaction id, visible in the
      snapshot or reported as still in progress. */
  predicate Admits(db: Db, snap: Snapshot, e: Entry) {
    Visible(snap, Xmin(e)) || Xmin(e) in db.live
  }

  function Keep(rows: seq<Entry>, p: Entry -> bool): seq<Entry> {
    if |rows| == 0 then [] else (if p(rows[0]) then [rows[0]] else []) + Keep(rows[1..], p)
  }

  function Wanted(db: Db, snap: Snapshot, f: Filter, before: Option<nat>): Entry -> bool {
    e => Matches(f, e) && Admits(db, snap, e) && (before.Some? ==> e.m.seqNo < before.value)
  }

  datatype Page = Page(items: seq<Entry>, next: Option<nat>)

  /** list_movements_cursor */
  function ListPage(db: Db, snap: Snapshot, f: Filter, before: Option<nat>, limit: nat): Page {
    Slice(Keep(db.rows, Wanted(db, snap, f, before)), limit)
  }

  /** One row more than the limit is fetched to see whether a next page exists. */
  function Slice(found: seq<Entry>, limit: nat): Page {
    var movements := if |found| > limit + 1 then found[..limit + 1] else found;
    var more := |movements| > limit;
    var visible := if more then movements[..limit] else movements;
    Page(visible, if more && |visible| > 0 then Some(visible[|visible| - 1].m.seqNo) else None)
  }

  // ----- Filtering and placing -----

  lemma {:induction false} KeepMembers(rows: seq<Entry>, p: Entry -> bool)
    ensures forall e :: e in Keep(rows, p) <==> e in rows && p(e)
    ensures Descending(rows) ==> Descending(Keep(rows, p))
  {
    if |rows| != 0 {
      KeepMembers(rows[1..], p);
      assert rows == [rows[0]] + rows[1..];
      if Descending(rows) {
        forall e | e in Keep(rows[1..], p) ensures e.m.seqNo < rows[0].m.seqNo {
          var k :| 0 <= k < |rows[1..]| && rows[1..][k] == e;
          assert rows[k + 1] == e;
        }
      }
    }
  }

  lemma {:induction false} KeepSame(rows: seq<Entry>, p: Entry -> bool, q: Entry -> bool)
    requires forall e :: e in rows ==> p(e) == q(e)
    ensures Keep(rows, p) == Keep(rows, q)
  {
    if |rows| != 0 {
      assert rows[0] in rows;
      KeepSame(rows[1..], p, q);
    }
  }

  lemma {:induction false} KeepTwice(rows: seq<Entry>, p: Entry -> bool, q: Entry -> bool, both: Entry -> bool)
    requires forall e :: e in rows ==> both(e) == (p(e) && q(e))
    ensures Keep(Keep(rows, p), q) == Keep(rows, both)
  {
    if |rows| != 0 {
      assert rows[0] in rows;
      KeepTwice(rows[1..], p, q, both);
      if p(rows[0]) {
        assert Keep(rows, p)[1..] == Keep(rows[1..], p);
      } else {
        assert Keep(rows, p) == Keep(rows[1..], p) && Keep(rows, both) == Keep(rows[1..], both);
      }
    }
  }

  lemma {:induction false} PlaceSkipped(rows: seq<Entry>, e: Entry, p: Entry -> bool)
    requires !p(e)
    ensures Keep(Place(rows, e), p) == Keep(rows, p)
  {
    if |rows| == 0 || e.m.seqNo > rows[0].m.seqNo {
      assert ([e] + rows)[1..] == rows;
    } else {
      PlaceSkipped(rows[1..], e, p);
      assert ([rows[0]] + Place(rows[1..], e))[1..] == Place(rows[1..], e);
    }
  }

  lemma {:induction false} PlaceMembers(rows: seq<Entry>, e: Entry)
    ensures forall x :: x in Place(rows, e) <==> x in rows || x == e
  {
    if |rows| != 0 && e.m.seqNo <= rows[0].m.seqNo {
      PlaceMembers(rows[1..], e);
      assert rows == [rows[0]] + rows[1..];
    }
  }

  lemma BelowHead(rows: seq<Entry>, x: Entry)
    requires Descending(rows) && |rows| > 0 && x in rows[1..]
    ensures x.m.seqNo < rows[0].m.seqNo
  {
    var k :| 0 <= k < |rows[1..]| && rows[1..][k] == x;
    assert rows[k + 1] == x;
  }

  lemma HeadFirst(first: Entry, rest: seq<Entry>)
    requires Descending(rest) && forall x :: x in rest ==> x.m.seqNo < first.m.seqNo
    ensures Descending([first] + rest)
  {
    var rows := [first] + rest;
    forall i, k | 0 <= i < k < |rows| ensures rows[i].m.seqNo > rows[k].m.seqNo {
      assert rows[k] == rest[k - 1];
    }
  }

  lemma {:induction false} PlaceKeepsOrder(rows: seq<Entry>, e: Entry)
    requires Descending(rows) && forall x :: x in rows ==> x.m.seqNo != e.m.seqNo
    ensures Descending(Place(rows, e))
  {
    if |rows| == 0 || e.m.seqNo > rows[0].m.seqNo {
      forall x | x in rows ensures x.m.seqNo < e.m.seqNo {
        assert x == rows[0] || x in rows[1..];
        if x in rows[1..] {
          BelowHead(rows, x);
        }
      }
      HeadFirst(e, rows);
    } else {
      PlaceKeepsOrder(rows[1..], e);
      PlaceMembers(rows[1..], e);
      assert rows[0] in rows;
      forall x | x in Place(rows[1..], e) ensures x.m.seqNo < rows[0].m.seqNo {
        if x in rows[1..] {
          BelowHead(rows, x);
        }
      }
      HeadFirst(rows[0], Place(rows[1..], e));
    }
  }

  // ----- Runs of the database -----

  predicate LiveOk(db: Db, xid: nat)
    requires xid in db.live
  {
    && 3 <= xid < db.nextXid <= xid + HALF_CYCLE
    && (db.live[xid].Some? ==>
          var e := db.live[xid].value;
          e.xid == xid && e.m.seqNo < db.nextSeq && forall r :: r in db.rows ==> r.m.seqNo != e.m.seqNo)
  }

  predicate DbOk(db: Db) {
    && Descending(db.rows) && 3 <= db.nextXid
    && (forall r :: r in db.rows ==> r.m.seqNo < db.nextSeq && r.xid < db.nextXid && r.xid !in db.live)
    && (forall xid :: xid in db.live ==> LiveOk(db, xid))
    && (forall x, y :: x in db.live && y in db.live && x != y && db.live[x].Some? && db.live[y].Some?
                       ==> db.live[x].value.m.seqNo != db.live[y].value.m.seqNo)
  }

  lemma StepOk(db: Db, s: Step)
    requires DbOk(db)
    ensures DbOk(Exec(db, s))
  {
    var db' := Exec(db, s);
    assert forall x :: x in db.live ==> LiveOk(db, x);
    if s.Commit? {
      CommitOk(db, s.xid);
    } else {
      forall x | x in db'.live ensures LiveOk(db', x) {
        assert x in db.live ==> LiveOk(db, x);
      }
    }
  }

  lemma CommitOk(db: Db, xid: nat)
    requires DbOk(db)
    ensures DbOk(Exec(db, Commit(xid)))
  {
    if xid in db.live {
      var db' := Exec(db, Commit(xid));
      assert LiveOk(db, xid);
      if db.live[xid].Some? {
        PlaceKeepsOrder(db.rows, db.live[xid].value);
        PlaceMembers(db.rows, db.live[xid].value);
      }
      forall x | x in db'.live ensures LiveOk(db', x) {
        assert LiveOk(db, x);
      }
    }
  }

  lemma {:induction false} RunOk(steps: seq<Step>)
    ensures DbOk(ExecAll(START, steps))
  {
    if |steps| != 0 {
      RunOk(steps[..|steps| - 1]);
      StepOk(ExecAll(START, steps[..|steps| - 1]), steps[|steps| - 1]);
    }
  }

  /** What a state reached after the snapshot has to do with it. */
  predicate Since(db: Db, snap: Snapshot) {
    && snap.xmin <= snap.xmax <= db.nextXid
    && (forall x :: x in db.live ==> !Visible(snap, x))
  }

  function InSnapshot(snap: Snapshot, f: Filter): Entry -> bool {
    e => Matches(f, e) && Visible(snap, e.xid)
  }

  /** Whatever commits later, the rows visible in the snapshot stay the same. */
  lemma {:induction false} SnapshotStable(db: Db, steps: seq<Step>, snap: Snapshot, f: Filter)
    requires DbOk(db) && Since(db, snap)
    ensures var later := ExecAll(db, steps);
            && DbOk(later) && Since(later, snap) && db.nextXid <= later.nextXid
            && Keep(later.rows, InSnapshot(snap, f)) == Keep(db.rows, InSnapshot(snap, f))
  {
    if |steps| != 0 {
      var front, s := ExecAll(db, steps[..|steps| - 1]), steps[|steps| - 1];
      SnapshotStable(db, steps[..|steps| - 1], snap, f);
      StepOk(front, s);
      if s.Commit? && s.xid in front.live {
        assert LiveOk(front, s.xid);
        if front.live[s.xid].Some? {
          PlaceSkipped(front.rows, front.live[s.xid].value, InSnapshot(snap, f));
        }
      }
    }
  }

  // ----- Pages over a fixed listing -----

  /** Where the reader stands: before the first page, below a sequence number, or past the last page. */
  datatype Cursor = Start | Below(seqNo: nat) | Done

  /** The items read so far and the cursor after them. */
  datatype Progress = Progress(items: seq<Entry>, at: Cursor)

  function Before(at: Cursor): Option<nat> {
    if at.Below? then Some(at.seqNo) else None
  }

  /** Reading one more page, unless the last one had no next cursor. */
  function ReadPage(db: Db, snap: Snapshot, f: Filter, limit: nat, p: Progress): Progress {
    if p.at.Done? then p
    else
      var page := ListPage(db, snap, f, Before(p.at), limit);
      Progress(p.items + page.items, if page.next.Some? then Below(page.next.value) else Done)
  }

  /** n pages; page k is read in state states(k). */
  function Follow(states: nat -> Db, snap: Snapshot, f: Filter, limit: nat, n: nat): Progress {
    if n == 0 then Progress([], Start)
    else ReadPage(states(n - 1), snap, f, limit, Follow(states, snap, f, limit, n - 1))
  }

  function Under(before: Option<nat>): Entry -> bool {
    (e: Entry) => before.Some? ==> e.m.seqNo < before.value
  }

  lemma {:induction false} KeepPrefix(rows: seq<Entry>, k: nat, p: Entry -> bool)
    requires k <= |rows|
    requires forall i :: 0 <= i < k ==> !p(rows[i])
    requires forall i :: k <= i < |rows| ==> p(rows[i])
    ensures Keep(rows, p) == rows[k..]
  {
    if |rows| != 0 {
      if k == 0 {
        KeepPrefix(rows[1..], 0, p);
      } else {
        KeepPrefix(rows[1..], k - 1, p);
        assert rows[1..][k - 1..] == rows[k..];
      }
    }
  }

  /** Below the sequence number of row k - 1 of a descending listing come exactly the rows from k on. */
  lemma RestBelow(base: seq<Entry>, k: nat)
    requires Descending(base) && 0 < k <= |base|
    ensures Keep(base, Under(Some(base[k - 1].m.seqNo))) == base[k..]
  {
    KeepPrefix(base, k, Under(Some(base[k - 1].m.seqNo)));
  }

  /** The page cut from the rows that remain. */
  function Cut(rest: seq<Entry>, limit: nat): Page {
    if |rest| > limit
    then Page(rest[..limit], if limit > 0 then Some(rest[limit - 1].m.seqNo) else None)
    else Page(rest, None)
  }

  lemma SliceIsCut(found: seq<Entry>, limit: nat)
    ensures Slice(found, limit) == Cut(found, limit)
  {
    if |found| > limit {
      assert found[..limit + 1][..limit] == found[..limit];
    }
  }

  /** Where every row is admitted exactly if it is visible, a page is cut from the snapshot's own rows. */
  lemma PageOfSnapshot(db: Db, snap: Snapshot, f: Filter, before: Option<nat>, limit: nat)
    requires forall e :: e in db.rows ==> Admits(db, snap, e) == Visible(snap, e.xid)
    ensures ListPage(db, snap, f, before, limit)
         == Cut(Keep(Keep(db.rows, InSnapshot(snap, f)), Under(before)), limit)
  {
    KeepTwice(db.rows, InSnapshot(snap, f), Under(before), Wanted(db, snap, f, before));
    SliceIsCut(Keep(db.rows, Wanted(db, snap, f, before)), limit);
  }

  // ----- The feed -----

  /** A state in which every row is admitted exactly if it is visible, and the snapshot's matching rows are
      those of `base`. */
  predicate Readable(db: Db, snap: Snapshot, base: seq<Entry>, f: Filter) {
    && (forall e :: e in db.rows ==> Admits(db, snap, e) == Visible(snap, e.xid))
    && Keep(db.rows, InSnapshot(snap, f)) == base
  }

  function Onward(done: nat, limit: nat, total: nat): nat {
    if done + limit < total then done + limit else total
  }

  /** Rows read after n pages. */
  function Reached(n: nat, limit: nat, total: nat): nat {
    if n == 0 then 0 else Onward(Reached(n - 1, limit, total), limit, total)
  }

  lemma {:induction false} ReachedAll(n: nat, limit: nat, total: nat)
    ensures Reached(n, limit, total) == if n * limit < total then n * limit else if n == 0 then 0 else total
  {
    if n != 0 {
      ReachedAll(n - 1, limit, total);
      assert n * limit == (n - 1) * limit + limit;
    }
  }

  /** The reader has exactly the first `done` rows, and is finished exactly when a page was read and none
      are left. */
  predicate HasRead(base: seq<Entry>, p: Progress, n: nat, done: nat) {
    && done <= |base| && p.items == base[..done]
    && (p.at.Start? <==> n == 0)
    && (n == 0 ==> done == 0)
    && (p.at.Done? <==> n > 0 && done == |base|)
    && (p.at.Below? ==> done > 0 && p.at.seqNo == base[done - 1].m.seqNo)
  }

  /** Every page continues the reading, in whichever state it is read. */
  ghost predicate Continues(states: nat -> Db, snap: Snapshot, base: seq<Entry>, f: Filter, limit: nat) {
    forall k: nat, p, n: nat, done: nat :: HasRead(base, p, n, done) ==>
      HasRead(base, ReadPage(states(k), snap, f, limit, p), n + 1, Onward(done, limit, |base|))
  }

  lemma {:induction false} PagesCut(states: nat -> Db, snap: Snapshot, base: seq<Entry>, f: Filter, limit: nat, n: nat)
    requires Continues(states, snap, base, f, limit)
    ensures HasRead(base, Follow(states, snap, f, limit, n), n, Reached(n, limit, |base|))
  {
    if n != 0 {
      PagesCut(states, snap, base, f, limit, n - 1);
      var p := Follow(states, snap, f, limit, n - 1);
      assert HasRead(base, ReadPage(states(n - 1), snap, f, limit, p), n - 1 + 1, Onward(Reached(n - 1, limit, |base|), limit, |base|));
    }
  }

  lemma PageRead(db: Db, snap: Snapshot, base: seq<Entry>, f: Filter, limit: nat, n: nat, p: Progress, done: nat)
    requires Readable(db, snap, base, f) && Descending(base) && limit > 0 && HasRead(base, p, n, done)
    ensures HasRead(base, ReadPage(db, snap, f, limit, p), n + 1, Onward(done, limit, |base|))
  {
    if !p.at.Done? {
      OnePage(db, snap, base, f, limit, done, Before(p.at));
      NextRead(base, p, n, done, limit, ListPage(db, snap, f, Before(p.at), limit));
    }
  }

  /** What one page adds to the first `done` rows. */
  predicate PageAt(base: seq<Entry>, limit: nat, done: nat, page: Page) {
    var next := Onward(done, limit, |base|);
    && done <= |base|
    && base[..done] + page.items == base[..next]
    && page.next == if 0 < done + limit < |base| then Some(base[next - 1].m.seqNo) else None
  }

  lemma NextRead(base: seq<Entry>, p: Progress, n: nat, done: nat, limit: nat, page: Page)
    requires HasRead(base, p, n, done) && limit > 0 && PageAt(base, limit, done, page)
    ensures HasRead(base, Progress(p.items + page.items, if page.next.Some? then Below(page.next.value) else Done), n + 1,
                    Onward(done, limit, |base|))
  {
  }

  lemma RestOf(base: seq<Entry>, done: nat, before: Option<nat>)
    requires Descending(base) && done <= |base|
    requires if done == 0 then before.None? else before == Some(base[done - 1].m.seqNo)
    ensures Keep(base, Under(before)) == base[done..]
  {
    if done == 0 {
      KeepPrefix(base, 0, Under(None));
    } else {
      RestBelow(base, done);
    }
  }

  lemma OnePage(db: Db, snap: Snapshot, base: seq<Entry>, f: Filter, limit: nat, done: nat, before: Option<nat>)
    requires Readable(db, snap, base, f) && Descending(base) && limit > 0 && done <= |base|
    requires if done == 0 then before.None? else before == Some(base[done - 1].m.seqNo)
    ensures PageAt(base, limit, done, ListPage(db, snap, f, before, limit))
  {
    RestOf(base, done, before);
    CutStep(base, done, limit);
    assert ListPage(db, snap, f, before, limit) == Cut(base[done..], limit) by {
      PageOfSnapshot(db, snap, f, before, limit);
    }
  }

  lemma CutStep(base: seq<Entry>, done: nat, limit: nat)
    requires done <= |base| && limit > 0
    ensures PageAt(base, limit, done, Cut(base[done..], limit))
  {
    var rest := base[done..];
    if |rest| > limit {
      assert base[..done] + rest[..limit] == base[..done + limit];
    } else {
      assert base[..done] + rest == base[..|base|];
    }
  }

  function States(db: Db, more: nat -> seq<Step>): nat -> Db {
    (k: nat) => ExecAll(db, more(k))
  }

  // ----- Transaction ids beyond 32 bits -----

  /** Every id past 2^32 handed out so far is visible in the snapshot. */
  predicate WrapSafe(snap: Snapshot, nextXid: nat) {
    forall xid :: EPOCH <= xid < nextXid ==> Visible(snap, xid)
  }

  /** The low half of an id past 2^32 lies below the snapshot, unless the id is a whole cycle ahead of it. */
  lemma LowHalf(snap: Snapshot, xid: nat)
    requires EPOCH <= xid < snap.xmin + EPOCH || (snap.xmin >= EPOCH && xid >= EPOCH)
    ensures Visible(snap, xid % EPOCH)
  {
    if snap.xmin < EPOCH {
      assert xid % EPOCH == xid - EPOCH;
    }
  }

  /** For any snapshot of the database: the cast xmin of every transaction below `nextXid` is judged as the
      transaction itself if and only if every id past 2^32 among them is visible in the snapshot. */
  lemma CastExactIff(snap: Snapshot, nextXid: nat)
    requires 0 < snap.xmin <= snap.xmax <= snap.xmin + HALF_CYCLE
    ensures (forall xid: nat :: xid < nextXid ==> Visible(snap, xid % EPOCH) == Visible(snap, xid))
       <==> WrapSafe(snap, nextXid)
  {
    if WrapSafe(snap, nextXid) {
      forall xid: nat | xid < nextXid ensures Visible(snap, xid % EPOCH) == Visible(snap, xid) {
        if xid >= EPOCH {
          assert Visible(snap, xid);
          assert xid < snap.xmin + EPOCH;
          LowHalf(snap, xid);
        }
      }
    }
    if forall xid: nat :: xid < nextXid ==> Visible(snap, xid % EPOCH) == Visible(snap, xid) {
      forall xid | EPOCH <= xid < nextXid ensures Visible(snap, xid) {
        ExactBelow(snap, nextXid, xid);
      }
    }
  }

  lemma ExactBelow(snap: Snapshot, nextXid: nat, xid: nat)
    requires 0 < snap.xmin <= snap.xmax <= snap.xmin + HALF_CYCLE && EPOCH <= xid < nextXid
    requires forall x: nat :: x < nextXid ==> Visible(snap, x % EPOCH) == Visible(snap, x)
    ensures Visible(snap, xid)
  {
    if snap.xmin < EPOCH {
      var x := if xid < snap.xmin + EPOCH then xid else snap.xmin + EPOCH - 1;
      LowHalf(snap, x);
      assert Visible(snap, x % EPOCH) == Visible(snap, x);
    } else {
      LowHalf(snap, xid);
    }
  }

  /** A snapshot taken in a run spans at most half a cycle. */
  lemma SnapshotNarrow(db: Db, snap: Snapshot)
    requires DbOk(db) && SnapshotOf(db, snap)
    ensures 0 < snap.xmin <= snap.xmax <= snap.xmin + HALF_CYCLE
  {
    assert snap.xmin in db.live ==> LiveOk(db, snap.xmin);
  }

  /** Under the condition, a row is admitted exactly if it is visible. */
  lemma AdmitsExact(db: Db, snap: Snapshot, e: Entry)
    requires 0 < snap.xmin <= snap.xmax <= snap.xmin + HALF_CYCLE
    requires e.xid < db.nextXid && e.xid !in db.live && WrapSafe(snap, db.nextXid)
    ensures Admits(db, snap, e) == Visible(snap, e.xid)
  {
    CastExactIff(snap, db.nextXid);
    if e.xid < EPOCH {
      assert Xmin(e) == e.xid;
    } else {
      assert Visible(snap, e.xid % EPOCH) == Visible(snap, e.xid);
    }
  }

  /** For a snapshot taken past the first cycle, the cast xmin is always below it: every row is admitted. */
  lemma LaterSnapshotAdmitsAll(db: Db, snap: Snapshot, e: Entry)
    requires snap.xmin >= EPOCH
    ensures Admits(db, snap, e)
  {
    assert Xmin(e) < EPOCH;
  }

  /** Every later state that is safe can be read. */
  lemma LaterReadable(db: Db, steps: seq<Step>, snap: Snapshot, f: Filter)
    requires DbOk(db) && SnapshotOf(db, snap) && WrapSafe(snap, ExecAll(db, steps).nextXid)
    ensures Readable(ExecAll(db, steps), snap, Keep(db.rows, InSnapshot(snap, f)), f)
  {
    SnapshotNarrow(db, snap);
    SnapshotStable(db, steps, snap, f);
    var later := ExecAll(db, steps);
    forall e | e in later.rows ensures Admits(later, snap, e) == Visible(snap, e.xid) {
      AdmitsExact(later, snap, e);
    }
  }

  /** What the filters ask of a movement, field by field. */
  predicate Fulfils(f: Filter, e: Entry) {
    && (f.kind == None || f.kind == Some(e.m.kind))
    && (f.actor == None || f.actor == Some(e.m.actor))
    && (f.location == None || f.location == e.m.source || f.location == e.m.destination)
    && (f.item == None || exists k :: 0 <= k < |e.m.lines| && f.item == Some(e.m.lines[k].item))
    && (f.since.None? || f.since.value <= e.occurredAt)
    && (f.until.None? || e.occurredAt < f.until.value)
  }

  lemma MatchesIff(f: Filter, e: Entry)
    ensures Matches(f, e) <==> Fulfils(f, e)
  {
  }

  /** A finished reading holds exactly the committed movements that fulfil the filters. */
  lemma ListedIff(db: Db, f: Filter, e: Entry)
    ensures e in Keep(db.rows, x => Matches(f, x)) <==> e in db.rows && Fulfils(f, e)
  {
    KeepMembers(db.rows, x => Matches(f, x));
    MatchesIff(f, e);
  }

  /** Following the cursor from the first page until none returns exactly the matching movements committed
      when the snapshot was taken, once each, in descending sequence, whatever commits between the pages,
      as long as every id past 2^32 handed out by then is visible in the snapshot; it takes
      max(1, ceil(matches / limit)) pages. */
  lemma FeedIsTheSnapshot(start: seq<Step>, more: nat -> seq<Step>, snap: Snapshot, f: Filter, limit: nat, n: nat)
    requires SnapshotOf(ExecAll(START, start), snap) && limit > 0
    requires forall k: nat :: WrapSafe(snap, ExecAll(ExecAll(START, start), more(k)).nextXid)
    ensures var db := ExecAll(START, start);
            var base := Keep(db.rows, e => Matches(f, e));
            var read := Follow(States(db, more), snap, f, limit, n);
            && (read.at.Done? <==> n > 0 && n * limit >= |base|)
            && (read.at.Done? ==> read.items == base && forall e :: e in read.items <==> e in db.rows && Fulfils(f, e))
            && Descending(base)
  {
    var db := ExecAll(START, start);
    RunOk(start);
    var base := Keep(db.rows, InSnapshot(snap, f));
    forall r | r in db.rows ensures Visible(snap, r.xid) {
    }
    KeepSame(db.rows, InSnapshot(snap, f), e => Matches(f, e));
    KeepMembers(db.rows, InSnapshot(snap, f));
    var states := States(db, more);
    forall k: nat, p, i: nat, done: nat | HasRead(base, p, i, done)
      ensures HasRead(base, ReadPage(states(k), snap, f, limit, p), i + 1, Onward(done, limit, |base|))
    {
      LaterReadable(db, more(k), snap, f);
      PageRead(states(k), snap, base, f, limit, i, p, done);
    }
    PagesCut(states, snap, base, f, limit, n);
    ReachedAll(n, limit, |base|);
    forall e ensures e in base <==> e in db.rows && Fulfils(f, e) {
      ListedIff(db, f, e);
    }
  }

  // ----- What happens otherwise -----

  lemma {:induction false} ExecConcat(db: Db, a: seq<Step>, b: seq<Step>)
    ensures ExecAll(db, a + b) == ExecAll(ExecAll(db, a), b)
  {
    if |b| == 0 {
      assert a + b == a;
    } else {
      ExecConcat(db, a, b[..|b| - 1]);
      assert (a + b)[..|a + b| - 1] == a + b[..|b| - 1];
    }
  }

  lemma ExecSnoc(db: Db, a: seq<Step>, s: Step)
    ensures ExecAll(db, a + [s]) == Exec(ExecAll(db, a), s)
  {
    assert (a + [s])[..|a|] == a;
  }

  /** Every running transaction can abort. */
  lemma {:induction false} Drain(db: Db) returns (steps: seq<Step>)
    ensures ExecAll(db, steps) == db.(live := map[])
    decreases |db.live|
  {
    if db.live.Keys == {} {
      assert db.live == map[];
      steps := [];
    } else {
      var xid :| xid in db.live;
      var next := Exec(db, Abort(xid));
      assert next.live.Keys == db.live.Keys - {xid};
      assert |next.live.Keys| < |db.live.Keys|;
      assert |next.live| < |db.live|;
      var rest := Drain(next);
      ExecSnoc(db, [], Abort(xid));
      ExecConcat(db, [Abort(xid)], rest);
      steps := [Abort(xid)] + rest;
    }
  }

  /** Transactions that begin and abort use up ids. */
  lemma {:induction false} Burn(db: Db, n: nat) returns (steps: seq<Step>)
    requires db.live == map[]
    ensures ExecAll(db, steps) == db.(nextXid := db.nextXid + n)
  {
    if n == 0 {
      steps := [];
    } else {
      var front := Burn(db, n - 1);
      var at := db.(nextXid := db.nextXid + n - 1);
      ExecSnoc(db, front, Begin);
      ExecSnoc(db, front + [Begin], Abort(at.nextXid));
      assert at.(live := at.live[at.nextXid := None], nextXid := at.nextXid + 1).live - {at.nextXid} == map[];
      steps := front + [Begin] + [Abort(at.nextXid)];
    }
  }

  /** One transaction inserts a movement and commits. */
  lemma Write(db: Db, m: Movement, at: int)
    requires DbOk(db) && db.live == map[]
    ensures var e := Entry(m.(seqNo := db.nextSeq), at, db.nextXid);
            var later := ExecAll(db, [Begin] + [Insert(db.nextXid, m, at)] + [Commit(db.nextXid)]);
            later.rows == [e] + db.rows && later.nextXid == db.nextXid + 1 && later.live == map[]
  {
    var xid := db.nextXid;
    var e := Entry(m.(seqNo := db.nextSeq), at, xid);
    ExecSnoc(db, [], Begin);
    assert [] + [Begin] == [Begin];
    ExecSnoc(db, [Begin], Insert(xid, m, at));
    ExecSnoc(db, [Begin] + [Insert(xid, m, at)], Commit(xid));
    assert |db.rows| > 0 ==> db.rows[0] in db.rows;
    assert map[xid := Some(e)] - {xid} == map[];
  }

  /** The condition is needed: for every snapshot of a run and every later transaction whose low half is visible
      in it, there is a continuation in which a movement of that transaction, committed after the snapshot,
      heads the first page, whatever the filter it matches and the page size. */
  lemma LateMovementLeaks(start: seq<Step>, snap: Snapshot, xid: nat, m: Movement, at: int, f: Filter, limit: nat)
      returns (more: seq<Step>, e: Entry)
    requires SnapshotOf(ExecAll(START, start), snap) && xid >= snap.xmax && Visible(snap, xid % EPOCH)
    requires Matches(f, Entry(m.(seqNo := ExecAll(START, start).nextSeq), at, xid)) && limit > 0
    ensures e.xid == xid && !Visible(snap, xid)
    ensures var page := ListPage(ExecAll(ExecAll(START, start), more), snap, f, None, limit);
            |page.items| > 0 && page.items[0] == e
  {
    var db := ExecAll(START, start);
    RunOk(start);
    more := WriteLater(db, xid, m, at);
    e := Entry(m.(seqNo := db.nextSeq), at, xid);
    HeadsPage(ExecAll(db, more), snap, f, limit, e);
  }

  /** Any later transaction id can be reached and write a movement. */
  lemma WriteLater(db: Db, xid: nat, m: Movement, at: int) returns (steps: seq<Step>)
    requires DbOk(db) && xid >= db.nextXid
    ensures ExecAll(db, steps).rows == [Entry(m.(seqNo := db.nextSeq), at, xid)] + db.rows
  {
    var quiet := Drain(db);
    var idle := db.(live := map[]);
    var burnt := Burn(idle, xid - db.nextXid);
    var ready := idle.(nextXid := xid);
    IdleOk(db, xid);
    Write(ready, m, at);
    ExecConcat(db, quiet, burnt);
    ExecConcat(db, quiet + burnt, [Begin] + [Insert(xid, m, at)] + [Commit(xid)]);
    steps := quiet + burnt + ([Begin] + [Insert(xid, m, at)] + [Commit(xid)]);
  }

  lemma IdleOk(db: Db, xid: nat)
    requires DbOk(db) && xid >= db.nextXid
    ensures DbOk(db.(live := map[], nextXid := xid))
  {
  }

  /** Likewise for a transaction running when the snapshot was taken: once it commits, its movement is admitted
      though not visible. */
  lemma RunningMovementLeaks(start: seq<Step>, snap: Snapshot, xid: nat, m: Movement, at: int)
      returns (more: seq<Step>, e: Entry)
    requires SnapshotOf(ExecAll(START, start), snap) && xid in snap.inProgress && Visible(snap, xid % EPOCH)
    ensures var later := ExecAll(ExecAll(START, start), more);
            e in later.rows && e.xid == xid && !Visible(snap, xid) && Admits(later, snap, e)
  {
    var db := ExecAll(START, start);
    RunOk(start);
    assert LiveOk(db, xid);
    var insert := if db.live[xid].Some? then [] else [Insert(xid, m, at)];
    ExecSnoc(db, [], Insert(xid, m, at));
    assert [] + [Insert(xid, m, at)] == [Insert(xid, m, at)];
    ExecSnoc(db, insert, Commit(xid));
    more := insert + [Commit(xid)];
    e := ExecAll(db, insert).live[xid].value;
    PlaceMembers(db.rows, e);
  }

  lemma HeadsPage(db: Db, snap: Snapshot, f: Filter, limit: nat, e: Entry)
    requires |db.rows| > 0 && db.rows[0] == e && Matches(f, e) && Visible(snap, Xmin(e)) && limit > 0
    ensures var page := ListPage(db, snap, f, None, limit); |page.items| > 0 && page.items[0] == e
  {
    assert Keep(db.rows, Wanted(db, snap, f, None))[0] == e;
    SliceIsCut(Keep(db.rows, Wanted(db, snap, f, None)), limit);
  }
}
