/** Inserting lines of a procurement revision against publishing it: both triggers take the advisory lock
    of the revision (namespace 61501). Revisions, lines and events are append-only. */
module RevisionSealing {
  import opened Journal
  import opened LockProtocol

  datatype EventType = RequestCreated | RevisionSubmitted | OtherEvent

  /** A row of procurement_events. */
  datatype Event = Event(id: Id, kind: EventType, revision: Option<Id>)

  /** line_count of the revision headers, (revision, line number) rows, event rows. */
  datatype Books = Books(lineCounts: map<Id, int>, lines: set<(Id, int)>, events: set<Event>)

  datatype Write =
    | InsertRevision(id: Id, lineCount: int)
    | InsertLine(revision: Id, lineNo: int)
    | InsertEvent(event: Event)

  datatype Lock = Revision(id: Id) | RevisionRow(id: Id) | LineKey(revision: Id, lineNo: int)

  predicate Publishes(e: Event) {
    e.revision.Some? && (e.kind.RequestCreated? || e.kind.RevisionSubmitted?)
  }

  function Apply(s: Books, w: Write): Books {
    match w
    case InsertRevision(id, n) => s.(lineCounts := s.lineCounts[id := n])
    case InsertLine(r, no) => s.(lines := s.lines + {(r, no)})
    case InsertEvent(e) => s.(events := s.events + {e})
  }

  function Locks(w: Write): set<Lock> {
    match w
    case InsertRevision(id, _) => {RevisionRow(id)}
    case InsertLine(r, no) => {Revision(r), LineKey(r, no)}
    case InsertEvent(e) => if Publishes(e) then {Revision(e.revision.value)} else {}
  }

  function LinesOf(s: Books, revision: Id): set<(Id, int)> {
    set line | line in s.lines && line.0 == revision
  }

  predicate Complete(s: Books, revision: Id) {
    revision in s.lineCounts && |LinesOf(s, revision)| == s.lineCounts[revision]
  }

  /** The sealing query: a publication event of the revision. */
  predicate Sealed(s: Books, revision: Id) {
    exists e :: e in s.events && Publishes(e) && e.revision == Some(revision)
  }

  predicate Fits(s: Books, w: Write) {
    w.InsertRevision? ==> w.id !in s.lineCounts
  }

  /** protect_procurement_revision_line_insert and validate_procurement_revision_publication, with the
      foreign key and unique constraint of the lines */
  predicate Check(s: Books, w: Write) {
    match w
    case InsertRevision(_, _) => Fits(s, w)
    case InsertLine(r, no) => r in s.lineCounts && (r, no) !in s.lines && !Sealed(s, r)
    case InsertEvent(e) => Publishes(e) ==> Complete(s, e.revision.value)
  }

  predicate Good(s: Books) {
    forall e :: e in s.events && Publishes(e) ==> Complete(s, e.revision.value)
  }

  /** Events stay, and what is published keeps its lines and its count. */
  predicate Keeps(s: Books, s': Books) {
    && s.events <= s'.events
    && forall e :: e in s.events && Publishes(e) ==>
         && LinesOf(s', e.revision.value) == LinesOf(s, e.revision.value)
         && (e.revision.value in s.lineCounts ==>
               e.revision.value in s'.lineCounts && s'.lineCounts[e.revision.value] == s.lineCounts[e.revision.value])
  }

  function Rules(): Protocol<Books, Write, Lock> {
    Protocol(Apply, Locks, Check, Fits, w => {}, (s, w) => true, Good, Keeps)
  }

  lemma OtherLinesKeep(s: Books, w: Write, revision: Id)
    requires w.InsertLine? ==> w.revision != revision
    ensures LinesOf(Apply(s, w), revision) == LinesOf(s, revision)
  {
  }

  lemma CheckStays(s: Books, w: Write, w2: Write)
    requires Locks(w) !! Locks(w2) && Fits(s, w2) && Check(s, w)
    ensures Check(Apply(s, w2), w)
  {
    match w
    case InsertRevision(id, _) => assert RevisionRow(id) in Locks(w);
    case InsertLine(r, no) =>
      assert Revision(r) in Locks(w) && LineKey(r, no) in Locks(w);
      assert forall e :: e in s.events && Publishes(e) ==> e.revision != Some(r);
      assert w2.InsertEvent? && Publishes(w2.event) ==> Revision(w2.event.revision.value) in Locks(w2);
    case InsertEvent(e) =>
      if Publishes(e) {
        assert Revision(e.revision.value) in Locks(w);
        OtherLinesKeep(s, w2, e.revision.value);
      }
  }

  lemma StepIsSound(s: Books, w: Write)
    requires Good(s) && Check(s, w)
    ensures Good(Apply(s, w)) && Keeps(s, Apply(s, w))
  {
    forall e | e in s.events && Publishes(e)
      ensures Complete(Apply(s, w), e.revision.value) && LinesOf(Apply(s, w), e.revision.value) == LinesOf(s, e.revision.value)
    {
      assert Sealed(s, e.revision.value);
      OtherLinesKeep(s, w, e.revision.value);
    }
    if w.InsertEvent? && Publishes(w.event) {
      OtherLinesKeep(s, w, w.event.revision.value);
    }
  }

  lemma {:induction false} RulesProtect()
    ensures Protects(Rules())
  {
    var p := Rules();
    forall s, w1, w2 | p.locks(w1) !! AllLocks(p, w2)
      ensures p.apply(p.apply(s, w2), w1) == p.apply(p.apply(s, w1), w2)
    {
      if w1.InsertRevision? && w2.InsertRevision? {
        assert RevisionRow(w1.id) in p.locks(w1) && RevisionRow(w2.id) in p.locks(w2);
        assert s.lineCounts[w2.id := w2.lineCount][w1.id := w1.lineCount]
            == s.lineCounts[w1.id := w1.lineCount][w2.id := w2.lineCount];
      }
    }
    forall s, w, w2 | p.locks(w) !! AllLocks(p, w2) && p.fits(s, w2) && p.check(s, w)
      ensures p.check(p.apply(s, w2), w)
    {
      CheckStays(s, w, w2);
    }
    forall s, w, w2 | p.locks(w) !! p.locks(w2) && p.fits(s, w) ensures p.fits(p.apply(s, w2), w) {
      assert w.InsertRevision? ==> RevisionRow(w.id) in p.locks(w);
    }
    forall s, w | p.good(s) && p.check(s, w) ensures p.good(p.apply(s, w)) && p.keeps(s, p.apply(s, w)) {
      StepIsSound(s, w);
    }
    forall s, writes | p.good(s) && Checked(p, s, writes)
      ensures p.good(ApplyAll(p, s, writes)) && p.keeps(s, ApplyAll(p, s, writes))
    {
      SoundByStep(p, s, writes);
    }
  }

  const EMPTY := Books(map[], {}, {})

  /** Once an event REQUEST_CREATED or REVISION_SUBMITTED of a revision has committed, the revision has exactly
      line_count lines in that state and in every later one, they are the same lines, and the event stays. */
  lemma {:induction false} PublishedStaysComplete(steps: seq<Step<Write, Lock>>, n: nat, id: Id, kind: EventType, revision: Id)
    requires n <= |steps| && (kind == RequestCreated || kind == RevisionSubmitted)
    requires Event(id, kind, Some(revision)) in Run(Rules(), EMPTY, steps[..n]).committed.events
    ensures var early, late := Run(Rules(), EMPTY, steps[..n]).committed, Run(Rules(), EMPTY, steps).committed;
            && revision in late.lineCounts && revision in early.lineCounts && late.lineCounts[revision] == early.lineCounts[revision]
            && |LinesOf(late, revision)| == late.lineCounts[revision]
            && LinesOf(late, revision) == LinesOf(early, revision) && Event(id, kind, Some(revision)) in late.events
  {
    RulesProtect();
    Interleavings(Rules(), EMPTY, steps, n);
    Interleavings(Rules(), EMPTY, steps[..n], 0);
    var e := Event(id, kind, Some(revision));
    assert Publishes(e);
    assert Complete(Run(Rules(), EMPTY, steps[..n]).committed, revision);
    assert Complete(Run(Rules(), EMPTY, steps).committed, revision);
  }

  // ----- What the triggers let through -----

  /** A line is accepted exactly for a known revision without a line of that number and without an event
      REQUEST_CREATED or REVISION_SUBMITTED. */
  lemma LineAcceptedIff(s: Books, revision: Id, lineNo: int)
    ensures Check(s, InsertLine(revision, lineNo)) <==>
              && revision in s.lineCounts && (revision, lineNo) !in s.lines
              && forall id :: Event(id, RequestCreated, Some(revision)) !in s.events
                              && Event(id, RevisionSubmitted, Some(revision)) !in s.events
  {
    assert forall e: Event :: e == Event(e.id, e.kind, e.revision);
    if Sealed(s, revision) {
      var e :| e in s.events && Publishes(e) && e.revision == Some(revision);
      assert e == Event(e.id, e.kind, Some(revision));
    }
    assert forall id :: Publishes(Event(id, RequestCreated, Some(revision))) && Publishes(Event(id, RevisionSubmitted, Some(revision)));
  }

  /** An event is accepted exactly if it is no publication, or its revision has as many lines as it says. */
  lemma EventAcceptedIff(s: Books, e: Event)
    ensures Check(s, InsertEvent(e)) <==>
              || e.revision.None? || (e.kind != RequestCreated && e.kind != RevisionSubmitted)
              || (e.revision.value in s.lineCounts
                  && |set line | line in s.lines && line.0 == e.revision.value| == s.lineCounts[e.revision.value])
  {
    if e.revision.Some? {
      assert LinesOf(s, e.revision.value) == set line | line in s.lines && line.0 == e.revision.value;
    }
  }

  /** From every reachable world, whatever the triggers let through can be committed, and its row is then there. */
  lemma AcceptedRowCommits(before: seq<Step<Write, Lock>>, t: int, w: Write) returns (steps: seq<Step<Write, Lock>>)
    requires t !in Run(Rules(), EMPTY, before).live && Free(Run(Rules(), EMPTY, before), AllLocks(Rules(), w))
    requires Check(Run(Rules(), EMPTY, before).committed, w)
    ensures var s, s' := Run(Rules(), EMPTY, before).committed, Run(Rules(), EMPTY, before + steps).committed;
            match w
            case InsertRevision(id, n) => s' == s.(lineCounts := s.lineCounts[id := n])
            case InsertLine(r, no) => s' == s.(lines := s.lines + {(r, no)})
            case InsertEvent(e) => s' == s.(events := s.events + {e})
  {
    steps := CommitsAlone(Rules(), Run(Rules(), EMPTY, before), t, w);
    ContinuesRun(Rules(), EMPTY, before, steps);
  }
}
