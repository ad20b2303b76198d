/** What holds of the committed warehouse after every interleaving of movement transactions. */
module LedgerTheorems {
  import opened Journal
  import opened Reversals
  import opened Projections
  import opened Drift
  import opened Conservation
  import opened LedgerRuns

  /** The committed tables equal the fold of the committed journal at every key, with a row exactly where
      the sum is nonzero and every row within 1..2^53-1; the drift query reports nothing. */
  lemma {:induction false} TablesFollowJournal(steps: seq<Step>)
    ensures var w := Run(steps);
            && (forall item, location :: Row(w.tables.stock, (item, location)) == StockSum(w.journal, item, location))
            && (forall item, user :: Row(w.tables.custody, (user, item)) == CustodySum(w.journal, item, user))
            && (forall item, location :: (item, location) in w.tables.stock <==> StockSum(w.journal, item, location) != 0)
            && (forall item, user :: (user, item) in w.tables.custody <==> CustodySum(w.journal, item, user) != 0)
            && PositiveRows(w.tables.stock) && PositiveRows(w.tables.custody)
            && !ProjectionDriftExists(w.journal, w.tables)
  {
    RunKeeps(steps);
    var w := Run(steps);
    DriftExact(w.journal, w.tables);
    forall item, location
      ensures (item, location) in w.tables.stock <==> StockSum(w.journal, item, location) != 0
    {
      assert Row(w.tables.stock, (item, location)) == StockSum(w.journal, item, location);
    }
    forall item, user
      ensures (user, item) in w.tables.custody <==> CustodySum(w.journal, item, user) != 0
    {
      assert Row(w.tables.custody, (user, item)) == CustodySum(w.journal, item, user);
    }
  }

  /** Once a transaction's lines are in, no refresh call of it can find a balance out of range: each writes the
      committed balance plus the movement's delta. */
  lemma {:induction false} RefreshNeverOutOfRange(steps: seq<Step>, t: Id, holderOk: bool)
    requires t in Run(steps).live
    requires Run(steps).live[t].phase.Lined? && Run(steps).live[t].phase.refreshed < |Run(steps).live[t].draft.lines|
    ensures RefreshIn(Run(steps), t, holderOk).Ok? || RefreshIn(Run(steps), t, holderOk).HolderIneligible?
    ensures Refreshes(Run(steps), Run(steps).live[t], RefreshIn(Run(steps), t, true))
  {
    RunKeeps(steps);
    RefreshSucceeds(Run(steps), t, holderOk);
  }

  /** At most one movement per actor and request id, and no two movements share a sequence number. */
  lemma {:induction false} OneMovementPerRequest(steps: seq<Step>, i: nat, k: nat)
    requires i < k < |Run(steps).journal|
    ensures !SameRequest(Run(steps).journal[i], Run(steps).journal[k])
    ensures Run(steps).journal[i].seqNo != Run(steps).journal[k].seqNo
  {
    RunKeeps(steps);
    var journal := Run(steps).journal;
    assert Next(journal[..k], journal[k]);
    assert journal[..k][i] == journal[i];
  }

  /** For each item, the stock table over all locations plus the custody table over all users equals the
      signed sum of the committed one-sided movements. */
  lemma {:induction false} TablesConserve(steps: seq<Step>, item: Id, locations: seq<Id>, users: seq<Id>)
    requires Covers(Run(steps).journal, locations, users)
    ensures var w := Run(steps);
            Total(locations, l => Row(w.tables.stock, (item, l))) + Total(users, u => Row(w.tables.custody, (u, item)))
            == OneSidedTotal(w.journal, item)
  {
    RunKeeps(steps);
    var w := Run(steps);
    JournalConserves(w.journal, item, locations, users);
    TotalSame(locations, l => Row(w.tables.stock, (item, l)), StockAcross(w.journal, item));
    TotalSame(users, u => Row(w.tables.custody, (u, item)), CustodyAcross(w.journal, item));
  }

  lemma {:induction false} TotalSame(keys: seq<Id>, f: Id -> int, g: Id -> int)
    requires forall k :: f(k) == g(k)
    ensures Total(keys, f) == Total(keys, g)
  {
    if |keys| != 0 {
      TotalSame(keys[..|keys| - 1], f, g);
    }
  }

  // ----- Replay in sequence order -----

  predicate InSequence(replay: seq<Movement>) {
    forall i, k :: 0 <= i < k < |replay| ==> replay[i].seqNo < replay[k].seqNo
  }

  /** The rows numbered at most n, in the order of the journal. */
  function UpTo(journal: seq<Movement>, n: nat): seq<Movement> {
    if |journal| == 0 then []
    else
      var last := journal[|journal| - 1];
      UpTo(journal[..|journal| - 1], n) + if last.seqNo <= n then [last] else []
  }

  lemma {:induction false} UpToAll(journal: seq<Movement>, n: nat)
    requires forall k :: 0 <= k < |journal| ==> journal[k].seqNo <= n
    ensures UpTo(journal, n) == journal
  {
    if |journal| != 0 {
      var front := journal[..|journal| - 1];
      assert forall k :: 0 <= k < |front| ==> front[k] == journal[k];
      UpToAll(front, n);
      assert front + [journal[|journal| - 1]] == journal;
    }
  }

  lemma {:induction false} UpToCounts(journal: seq<Movement>, n: nat, x: Movement)
    ensures multiset(UpTo(journal, n))[x] == if x.seqNo <= n then multiset(journal)[x] else 0
  {
    if |journal| != 0 {
      var front, last := journal[..|journal| - 1], journal[|journal| - 1];
      UpToCounts(front, n, x);
      assert journal == front + [last];
    }
  }

  /** A prefix of the replay holds exactly the journal rows numbered up to its last number. */
  lemma {:induction false} ReplayPrefix(replay: seq<Movement>, k: nat)
    requires InSequence(replay) && 0 < k <= |replay|
    ensures UpTo(replay, replay[k - 1].seqNo) == replay[..k]
    decreases |replay|
  {
    var n := replay[k - 1].seqNo;
    if k == |replay| {
      UpToAll(replay, n);
      assert replay[..k] == replay;
    } else {
      ReplayPrefix(replay[..|replay| - 1], k);
      assert replay[..|replay| - 1][..k] == replay[..k];
    }
  }

  lemma ReplayIsUpTo(journal: seq<Movement>, replay: seq<Movement>, k: nat)
    requires multiset(replay) == multiset(journal) && InSequence(replay) && 0 < k <= |replay|
    ensures multiset(replay[..k]) == multiset(UpTo(journal, replay[k - 1].seqNo))
  {
    var n := replay[k - 1].seqNo;
    ReplayPrefix(replay, k);
    forall x ensures multiset(UpTo(replay, n))[x] == multiset(UpTo(journal, n))[x] {
      UpToCounts(replay, n, x);
      UpToCounts(journal, n, x);
    }
  }

  /** For an effect confined to one item, the rows numbered up to n count like a commit prefix: movements
      of one item commit in the order of their numbers. */
  lemma {:induction false} UpToIsPrefix(journal: seq<Movement>, n: nat, item: Id, effect: Movement -> int) returns (k: nat)
    requires Ordered(journal)
    requires forall m :: !Touches(m, item) ==> effect(m) == 0
    ensures k <= |journal| && Sum(UpTo(journal, n), effect) == Sum(journal[..k], effect)
  {
    if |journal| == 0 {
      k := 0;
    } else {
      var front, last := journal[..|journal| - 1], journal[|journal| - 1];
      OrderedFront(journal);
      UpToLast(journal, n, effect);
      if last.seqNo <= n && Touches(last, item) {
        k := |journal|;
        UpToSkips(front, n, item, effect, last.seqNo);
        assert journal[..k] == journal;
      } else {
        k := UpToIsPrefix(front, n, item, effect);
        assert front[..k] == journal[..k];
      }
    }
  }

  lemma UpToLast(journal: seq<Movement>, n: nat, effect: Movement -> int)
    requires |journal| > 0
    ensures var front, last := journal[..|journal| - 1], journal[|journal| - 1];
            Sum(UpTo(journal, n), effect) == Sum(UpTo(front, n), effect) + if last.seqNo <= n then effect(last) else 0
  {
    var front, last := journal[..|journal| - 1], journal[|journal| - 1];
    SumSnoc(UpTo(front, n), last, effect);
    assert UpTo(front, n) + [] == UpTo(front, n);
  }

  lemma OrderedFront(journal: seq<Movement>)
    requires Ordered(journal) && |journal| > 0
    ensures Ordered(journal[..|journal| - 1])
    ensures Next(journal[..|journal| - 1], journal[|journal| - 1])
  {
    var front := journal[..|journal| - 1];
    forall k | 0 <= k < |front| ensures Next(front[..k], front[k]) {
      assert front[..k] == journal[..k];
    }
  }

  /** Rows numbered above n are not of this item, so leaving them out changes nothing. */
  lemma {:induction false} UpToSkips(journal: seq<Movement>, n: nat, item: Id, effect: Movement -> int, bound: nat)
    requires bound <= n
    requires forall k :: 0 <= k < |journal| && Touches(journal[k], item) ==> journal[k].seqNo < bound
    requires forall m :: !Touches(m, item) ==> effect(m) == 0
    ensures Sum(UpTo(journal, n), effect) == Sum(journal, effect)
  {
    if |journal| != 0 {
      var front, last := journal[..|journal| - 1], journal[|journal| - 1];
      UpToSkips(front, n, item, effect, bound);
      UpToLast(journal, n, effect);
    }
  }

  lemma {:induction false} ReplayedSum(journal: seq<Movement>, replay: seq<Movement>, k: nat, item: Id,
                                       effect: Movement -> int) returns (p: nat)
    requires Ordered(journal) && multiset(replay) == multiset(journal) && InSequence(replay) && k <= |replay|
    requires forall m :: !Touches(m, item) ==> effect(m) == 0
    ensures p <= |journal| && Sum(replay[..k], effect) == Sum(journal[..p], effect)
  {
    if k == 0 {
      p := 0;
    } else {
      ReplayIsUpTo(journal, replay, k);
      SumPermuted(replay[..k], UpTo(journal, replay[k - 1].seqNo), effect);
      p := UpToIsPrefix(journal, replay[k - 1].seqNo, item, effect);
    }
  }

  /** Replaying the committed journal in the order of journal_seq keeps every stock balance, and every
      custody balance, within 0..2^53-1 at every prefix, although transactions commit out of that order. */
  lemma {:induction false} ReplayInRange(steps: seq<Step>, replay: seq<Movement>, k: nat, item: Id)
    requires multiset(replay) == multiset(Run(steps).journal) && InSequence(replay) && k <= |replay|
    ensures forall location :: InRange(StockSum(replay[..k], item, location))
    ensures forall user :: InRange(Sum(replay[..k], CustodyEffect(Run(steps).journal, item, user)))
  {
    RunKeeps(steps);
    var journal := Run(steps).journal;
    forall m | !Touches(m, item)
      ensures forall l :: StockEffect(item, l)(m) == 0
      ensures forall u :: CustodyEffect(journal, item, u)(m) == 0
    {
      UntouchedEffects(journal, m, item);
    }
    forall location ensures InRange(StockSum(replay[..k], item, location)) {
      var p := ReplayedSum(journal, replay, k, item, StockEffect(item, location));
      assert SumsInRange(journal[..p]);
      assert InRange(StockSum(journal[..p], item, location));
    }
    forall user ensures InRange(Sum(replay[..k], CustodyEffect(journal, item, user))) {
      var p := ReplayedSum(journal, replay, k, item, CustodyEffect(journal, item, user));
      PrefixCustody(journal, p, item, user);
      assert SumsInRange(journal[..p]);
      assert InRange(CustodySum(journal[..p], item, user));
    }
  }

  lemma PrefixCustody(journal: seq<Movement>, p: nat, item: Id, user: Id)
    requires AcceptedJournal(journal) && p <= |journal|
    ensures Sum(journal[..p], CustodyEffect(journal, item, user)) == CustodySum(journal[..p], item, user)
  {
    AcceptedIsWellLinked(journal);
    var front := journal[..p];
    forall k | 0 <= k < p
      ensures CustodyEffect(journal, item, user)(front[k]) == CustodyEffect(front, item, user)(front[k])
    {
      if journal[k].original.Some? {
        assert TargetOk(journal[..k], journal[k]);
        FindExtends(journal[..k], journal[k..], journal[k].original.value);
        FindExtends(journal[..k], journal[k..p], journal[k].original.value);
        assert journal == journal[..k] + journal[k..];
        assert front == journal[..k] + journal[k..p];
      }
    }
    SumCongruent(front, CustodyEffect(journal, item, user), CustodyEffect(front, item, user));
  }
}
