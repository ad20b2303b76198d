/** Transactions that check rows under exclusive locks held to the end, at READ COMMITTED. A protocol says
    what a row write does, which locks its trigger takes and what the trigger checks, immediately or
    deferred to commit. Under conditions on single writes, every interleaving keeps the invariant. */
module LockProtocol {

  datatype Protocol<!S, !W, !K> = Protocol(
    apply: (S, W) -> S,            // the committed state after one row write
    locks: W -> set<K>,            // row and advisory locks taken before the immediate check
    check: (S, W) -> bool,         // the immediate check, on committed rows plus own earlier writes
    fits: (S, W) -> bool,          // the OLD row image the write was computed from is the current row
    lateLocks: W -> set<K>,        // locks taken by the deferred trigger
    lateCheck: (S, W) -> bool,     // the deferred check, on committed rows plus all own writes
    good: S -> bool,               // the invariant of committed states
    keeps: (S, S) -> bool)         // what a later committed state must keep of an earlier one

  datatype Tx<W, K> = Tx(held: set<K>, writes: seq<W>, committing: bool, validated: nat)

  datatype World<S, W, K> = World(committed: S, live: map<int, Tx<W, K>>)

  datatype Step<W, K> =
    | Begin(tx: int)
    | Acquire(tx: int, lock: K)
    | Write(tx: int, write: W)
    | StartCommit(tx: int)     // COMMIT issued: deferred triggers run, in order
    | Validate(tx: int)
    | Commit(tx: int)
    | Abort(tx: int)

  function ApplyAll<S, W, K>(p: Protocol<S, W, K>, s: S, writes: seq<W>): S {
    if |writes| == 0 then s else p.apply(ApplyAll(p, s, writes[..|writes| - 1]), writes[|writes| - 1])
  }

  /** One statement or trigger of one transaction. A blocked lock waits; a failed check aborts. */
  function Exec<S, W(==), K(==)>(p: Protocol<S, W, K>, w: World<S, W, K>, s: Step<W, K>): World<S, W, K> {
    if s.Begin? then
      if s.tx in w.live then w else w.(live := w.live[s.tx := Tx({}, [], false, 0)])
    else if s.tx !in w.live then w
    else
      var tx := w.live[s.tx];
      var view := ApplyAll(p, w.committed, tx.writes);
      match s
      case Begin(_) => w
      case Acquire(_, lock) =>
        if exists u :: u in w.live && u != s.tx && lock in w.live[u].held then w
        else w.(live := w.live[s.tx := tx.(held := tx.held + {lock})])
      case Write(_, write) =>
        if tx.committing || !(p.locks(write) <= tx.held) then w
        else if !p.check(view, write) then w.(live := w.live - {s.tx})
        else w.(live := w.live[s.tx := tx.(writes := tx.writes + [write])])
      case StartCommit(_) => w.(live := w.live[s.tx := tx.(committing := true)])
      case Validate(_) =>
        if !tx.committing || tx.validated >= |tx.writes| || !(p.lateLocks(tx.writes[tx.validated]) <= tx.held) then w
        else if !p.lateCheck(view, tx.writes[tx.validated]) then w.(live := w.live - {s.tx})
        else w.(live := w.live[s.tx := tx.(validated := tx.validated + 1)])
      case Commit(_) =>
        if tx.committing && tx.validated == |tx.writes| then World(view, w.live - {s.tx}) else w
      case Abort(_) => w.(live := w.live - {s.tx})
  }

  function Run<S, W(==), K(==)>(p: Protocol<S, W, K>, start: S, steps: seq<Step<W, K>>): World<S, W, K> {
    if |steps| == 0 then World(start, map[])
    else Exec(p, Run(p, start, steps[..|steps| - 1]), steps[|steps| - 1])
  }

  // ----- What an instance has to show -----

  /** The locks a committing transaction holds for a write. */
  function AllLocks<S, W, K(==)>(p: Protocol<S, W, K>, w: W): set<K> {
    p.locks(w) + p.lateLocks(w)
  }

  /** Writes under disjoint locks commute. */
  ghost predicate Commutes<S(!new), W(!new), K(!new)>(p: Protocol<S, W, K>) {
    forall s, w1, w2 :: p.locks(w1) !! AllLocks(p, w2) ==> p.apply(p.apply(s, w2), w1) == p.apply(p.apply(s, w1), w2)
  }

  /** A row image is protected by the write's own immediate locks. */
  ghost predicate FitsFramed<S(!new), W(!new), K(!new)>(p: Protocol<S, W, K>) {
    && (forall s, w :: p.check(s, w) ==> p.fits(s, w))
    && (forall s, w, w2 :: p.locks(w) !! p.locks(w2) && p.fits(s, w) ==> p.fits(p.apply(s, w2), w))
  }

  /** A write under disjoint locks spoils no immediate check. */
  ghost predicate CheckFramed<S(!new), W(!new), K(!new)>(p: Protocol<S, W, K>) {
    forall s, w, w2 :: p.locks(w) !! AllLocks(p, w2) && p.fits(s, w2) && p.check(s, w) ==> p.check(p.apply(s, w2), w)
  }

  /** A write under disjoint locks spoils no deferred check. */
  ghost predicate LateFramed<S(!new), W(!new), K(!new)>(p: Protocol<S, W, K>) {
    forall s, w, w2 :: AllLocks(p, w) !! AllLocks(p, w2) && p.fits(s, w2) && p.lateCheck(s, w)
                       ==> p.lateCheck(p.apply(s, w2), w)
  }

  /** Each write was checked on the rows before it. */
  ghost predicate Checked<S, W, K>(p: Protocol<S, W, K>, s: S, writes: seq<W>) {
    forall k :: 0 <= k < |writes| ==> p.check(ApplyAll(p, s, writes[..k]), writes[k])
  }

  ghost predicate LateChecked<S, W, K>(p: Protocol<S, W, K>, s: S, writes: seq<W>, n: nat)
    requires n <= |writes|
  {
    forall k :: 0 <= k < n ==> p.lateCheck(ApplyAll(p, s, writes), writes[k])
  }

  /** A transaction running alone, all checks passed, keeps the invariant. */
  ghost predicate Sound<S(!new), W(!new), K(!new)>(p: Protocol<S, W, K>) {
    forall s, writes :: p.good(s) && Checked(p, s, writes) && LateChecked(p, s, writes, |writes|)
                        ==> p.good(ApplyAll(p, s, writes)) && p.keeps(s, ApplyAll(p, s, writes))
  }

  ghost predicate Preorder<S(!new), W, K>(p: Protocol<S, W, K>) {
    && (forall s :: p.keeps(s, s))
    && (forall a, b, c :: p.keeps(a, b) && p.keeps(b, c) ==> p.keeps(a, c))
  }

  ghost predicate Protects<S(!new), W(!new), K(!new)>(p: Protocol<S, W, K>) {
    Commutes(p) && FitsFramed(p) && CheckFramed(p) && LateFramed(p) && Sound(p) && Preorder(p)
  }

  /** Without deferred checks it is enough that each single checked write is sound. */
  ghost predicate StepSound<S(!new), W(!new), K(!new)>(p: Protocol<S, W, K>) {
    forall s, w :: p.good(s) && p.check(s, w) ==> p.good(p.apply(s, w)) && p.keeps(s, p.apply(s, w))
  }

  lemma {:induction false} SoundByStep<S(!new), W(!new), K(!new)>(p: Protocol<S, W, K>, s: S, writes: seq<W>)
    requires StepSound(p) && Preorder(p) && p.good(s) && Checked(p, s, writes)
    ensures p.good(ApplyAll(p, s, writes)) && p.keeps(s, ApplyAll(p, s, writes))
  {
    if |writes| != 0 {
      var front := writes[..|writes| - 1];
      forall k | 0 <= k < |front| ensures p.check(ApplyAll(p, s, front[..k]), front[k]) {
        assert front[..k] == writes[..k];
      }
      SoundByStep(p, s, front);
      assert p.check(ApplyAll(p, s, front), writes[|writes| - 1]);
    }
  }

  // ----- The theorem -----

  ghost predicate LocksHeld<S, W, K>(p: Protocol<S, W, K>, tx: Tx<W, K>) {
    && tx.validated <= |tx.writes|
    && (tx.validated > 0 ==> tx.committing)
    && (forall k :: 0 <= k < |tx.writes| ==> p.locks(tx.writes[k]) <= tx.held)
    && (forall k :: 0 <= k < tx.validated ==> p.lateLocks(tx.writes[k]) <= tx.held)
  }

  ghost predicate TxOk<S, W, K>(p: Protocol<S, W, K>, s: S, tx: Tx<W, K>) {
    LocksHeld(p, tx) && Checked(p, s, tx.writes) && LateChecked(p, s, tx.writes, tx.validated)
  }

  ghost predicate Inv<S, W, K>(p: Protocol<S, W, K>, w: World<S, W, K>) {
    && p.good(w.committed)
    && (forall t :: t in w.live ==> TxOk(p, w.committed, w.live[t]))
    && (forall t, u :: t in w.live && u in w.live && t != u ==> w.live[t].held !! w.live[u].held)
  }

  /** Another transaction's write moves past all of ours. */
  lemma {:induction false} Shift<S(!new), W(!new), K(!new)>(p: Protocol<S, W, K>, s: S, writes: seq<W>, w2: W)
    requires Commutes(p)
    requires forall k :: 0 <= k < |writes| ==> p.locks(writes[k]) !! AllLocks(p, w2)
    ensures ApplyAll(p, p.apply(s, w2), writes) == p.apply(ApplyAll(p, s, writes), w2)
  {
    if |writes| != 0 {
      Shift(p, s, writes[..|writes| - 1], w2);
    }
  }

  /** Our own writes do not touch the row another transaction is writing. */
  lemma {:induction false} FitsPast<S(!new), W(!new), K(!new)>(p: Protocol<S, W, K>, s: S, writes: seq<W>, w2: W)
    requires FitsFramed(p) && p.fits(s, w2)
    requires forall k :: 0 <= k < |writes| ==> p.locks(w2) !! p.locks(writes[k])
    ensures p.fits(ApplyAll(p, s, writes), w2)
  {
    if |writes| != 0 {
      FitsPast(p, s, writes[..|writes| - 1], w2);
    }
  }

  /** One write of a committing transaction leaves what another one relies on. */
  lemma WriteStable<S(!new), W(!new), K(!new)>(p: Protocol<S, W, K>, s: S, w2: W, tx: Tx<W, K>)
    requires Protects(p) && TxOk(p, s, tx) && p.fits(s, w2) && AllLocks(p, w2) !! tx.held
    ensures TxOk(p, p.apply(s, w2), tx)
  {
    var writes := tx.writes;
    forall k | 0 <= k < |writes| ensures p.locks(writes[k]) !! AllLocks(p, w2) {
      assert p.locks(writes[k]) <= tx.held;
    }
    forall k | 0 <= k < |writes| ensures p.check(ApplyAll(p, p.apply(s, w2), writes[..k]), writes[k]) {
      Shift(p, s, writes[..k], w2);
      FitsPast(p, s, writes[..k], w2);
    }
    Shift(p, s, writes, w2);
    FitsPast(p, s, writes, w2);
    forall k | 0 <= k < tx.validated ensures p.lateCheck(ApplyAll(p, p.apply(s, w2), writes), writes[k]) {
      assert AllLocks(p, writes[k]) <= tx.held;
    }
  }

  /** So does the whole commit, write by write. */
  lemma {:induction false} CommitStable<S(!new), W(!new), K(!new)>(p: Protocol<S, W, K>, s: S, writes: seq<W>, n: nat,
                                                                   held: set<K>, tx: Tx<W, K>)
    requires Protects(p) && TxOk(p, s, tx) && Checked(p, s, writes) && n <= |writes|
    requires forall k :: 0 <= k < |writes| ==> AllLocks(p, writes[k]) <= held
    requires held !! tx.held
    ensures TxOk(p, ApplyAll(p, s, writes[..n]), tx)
  {
    if n == 0 {
      assert writes[..0] == [];
    } else {
      CommitStable(p, s, writes, n - 1, held, tx);
      assert writes[..n][..n - 1] == writes[..n - 1];
      WriteStable(p, ApplyAll(p, s, writes[..n - 1]), writes[n - 1], tx);
    }
  }

  lemma CommitKeeps<S(!new), W(!new), K(!new)>(p: Protocol<S, W, K>, w: World<S, W, K>, t: int)
    requires Protects(p) && Inv(p, w) && t in w.live && w.live[t].validated == |w.live[t].writes|
    ensures var s := ApplyAll(p, w.committed, w.live[t].writes);
            Inv(p, World(s, w.live - {t})) && p.keeps(w.committed, s)
  {
    var tx := w.live[t];
    forall u | u in w.live && u != t ensures TxOk(p, ApplyAll(p, w.committed, tx.writes), w.live[u]) {
      CommitStable(p, w.committed, tx.writes, |tx.writes|, tx.held, w.live[u]);
      assert tx.writes[..|tx.writes|] == tx.writes;
    }
  }

  lemma WriteKeeps<S(!new), W(!new), K(!new)>(p: Protocol<S, W, K>, s: S, tx: Tx<W, K>, write: W)
    requires TxOk(p, s, tx) && !tx.committing && p.locks(write) <= tx.held && p.check(ApplyAll(p, s, tx.writes), write)
    ensures TxOk(p, s, tx.(writes := tx.writes + [write]))
  {
    var writes := tx.writes + [write];
    forall k | 0 <= k < |writes| ensures p.check(ApplyAll(p, s, writes[..k]), writes[k]) {
      assert writes[..k] == if k < |tx.writes| then tx.writes[..k] else tx.writes;
    }
  }

  lemma OnlyOneChanges<S(!new), W(!new), K(!new)>(p: Protocol<S, W, K>, w: World<S, W, K>, t: int, tx: Tx<W, K>)
    requires Inv(p, w) && TxOk(p, w.committed, tx)
    requires forall u :: u in w.live && u != t ==> tx.held !! w.live[u].held
    ensures Inv(p, w.(live := w.live[t := tx]))
  {
  }

  lemma EndKeeps<S(!new), W(!new), K(!new)>(p: Protocol<S, W, K>, w: World<S, W, K>, t: int)
    requires Inv(p, w)
    ensures Inv(p, w.(live := w.live - {t}))
  {
  }

  lemma ValidateKeeps<S(!new), W(!new), K(!new)>(p: Protocol<S, W, K>, s: S, tx: Tx<W, K>)
    requires TxOk(p, s, tx) && tx.committing && tx.validated < |tx.writes|
    requires p.lateLocks(tx.writes[tx.validated]) <= tx.held
    requires p.lateCheck(ApplyAll(p, s, tx.writes), tx.writes[tx.validated])
    ensures TxOk(p, s, tx.(validated := tx.validated + 1))
  {
    var tx1 := tx.(validated := tx.validated + 1);
    assert LocksHeld(p, tx1);
    assert Checked(p, s, tx1.writes);
    OneMoreChecked(p, s, tx.writes, tx.validated);
  }

  lemma OneMoreChecked<S, W, K>(p: Protocol<S, W, K>, s: S, writes: seq<W>, n: nat)
    requires n < |writes| && LateChecked(p, s, writes, n) && p.lateCheck(ApplyAll(p, s, writes), writes[n])
    ensures LateChecked(p, s, writes, n + 1)
  {
  }

  lemma AcquireKeeps<S(!new), W(!new), K(!new)>(p: Protocol<S, W, K>, w: World<S, W, K>, t: int, lock: K)
    requires Inv(p, w) && t in w.live
    ensures Inv(p, Exec(p, w, Acquire(t, lock))) && Exec(p, w, Acquire(t, lock)).committed == w.committed
  {
    if !exists u :: u in w.live && u != t && lock in w.live[u].held {
      OnlyOneChanges(p, w, t, w.live[t].(held := w.live[t].held + {lock}));
    }
  }

  lemma WriteStepKeeps<S(!new), W(!new), K(!new)>(p: Protocol<S, W, K>, w: World<S, W, K>, t: int, write: W)
    requires Inv(p, w) && t in w.live
    ensures Inv(p, Exec(p, w, Write(t, write))) && Exec(p, w, Write(t, write)).committed == w.committed
  {
    var tx := w.live[t];
    EndKeeps(p, w, t);
    if !tx.committing && p.locks(write) <= tx.held && p.check(ApplyAll(p, w.committed, tx.writes), write) {
      WriteKeeps(p, w.committed, tx, write);
      OnlyOneChanges(p, w, t, tx.(writes := tx.writes + [write]));
    }
  }

  lemma ValidateStepKeeps<S(!new), W(!new), K(!new)>(p: Protocol<S, W, K>, w: World<S, W, K>, t: int)
    requires Inv(p, w) && t in w.live
    ensures Inv(p, Exec(p, w, Validate(t))) && Exec(p, w, Validate(t)).committed == w.committed
  {
    var tx := w.live[t];
    EndKeeps(p, w, t);
    if tx.committing && tx.validated < |tx.writes| && p.lateLocks(tx.writes[tx.validated]) <= tx.held
       && p.lateCheck(ApplyAll(p, w.committed, tx.writes), tx.writes[tx.validated])
    {
      ValidateKeeps(p, w.committed, tx);
      OnlyOneChanges(p, w, t, tx.(validated := tx.validated + 1));
    }
  }

  lemma StepKeeps<S(!new), W(!new), K(!new)>(p: Protocol<S, W, K>, w: World<S, W, K>, s: Step<W, K>)
    requires Protects(p) && Inv(p, w)
    ensures Inv(p, Exec(p, w, s)) && p.keeps(w.committed, Exec(p, w, s).committed)
  {
    if s.Begin? {
      OnlyOneChanges(p, w, s.tx, Tx({}, [], false, 0));
    } else if s.tx in w.live {
      match s {
        case Acquire(t, lock) => AcquireKeeps(p, w, t, lock);
        case Write(t, write) => WriteStepKeeps(p, w, t, write);
        case StartCommit(t) => OnlyOneChanges(p, w, t, w.live[t].(committing := true));
        case Validate(t) => ValidateStepKeeps(p, w, t);
        case Commit(t) =>
          if w.live[t].committing && w.live[t].validated == |w.live[t].writes| {
            CommitKeeps(p, w, t);
          }
        case Abort(t) => EndKeeps(p, w, t);
      }
    }
  }

  /** Every interleaving of transactions, with waits, failed checks and aborts anywhere, leaves only good
      committed states, and each later state keeps what it must of each earlier one. */
  lemma {:induction false} Interleavings<S(!new), W(!new), K(!new)>(p: Protocol<S, W, K>, start: S, steps: seq<Step<W, K>>, n: nat)
    requires Protects(p) && p.good(start) && n <= |steps|
    ensures Inv(p, Run(p, start, steps))
    ensures p.keeps(Run(p, start, steps[..n]).committed, Run(p, start, steps).committed)
  {
    if |steps| == 0 {
      assert steps[..n] == steps;
    } else if n == |steps| {
      Interleavings(p, start, steps[..|steps| - 1], 0);
      StepKeeps(p, Run(p, start, steps[..|steps| - 1]), steps[|steps| - 1]);
      assert steps[..n] == steps;
    } else {
      Interleavings(p, start, steps[..|steps| - 1], n);
      StepKeeps(p, Run(p, start, steps[..|steps| - 1]), steps[|steps| - 1]);
      assert steps[..|steps| - 1][..n] == steps[..n];
    }
  }

  // ----- A write that passes commits -----

  function ExecAll<S, W(==), K(==)>(p: Protocol<S, W, K>, w: World<S, W, K>, steps: seq<Step<W, K>>): World<S, W, K> {
    if |steps| == 0 then w else Exec(p, ExecAll(p, w, steps[..|steps| - 1]), steps[|steps| - 1])
  }

  lemma Then<S, W, K>(p: Protocol<S, W, K>, w: World<S, W, K>, a: seq<Step<W, K>>, s: Step<W, K>)
    ensures ExecAll(p, w, a + [s]) == Exec(p, ExecAll(p, w, a), s)
  {
    assert (a + [s])[..|a|] == a;
  }

  lemma {:induction false} Chained<S, W, K>(p: Protocol<S, W, K>, w: World<S, W, K>, a: seq<Step<W, K>>, b: seq<Step<W, K>>)
    ensures ExecAll(p, w, a + b) == ExecAll(p, ExecAll(p, w, a), b)
  {
    if |b| == 0 {
      assert a + b == a;
    } else {
      Chained(p, w, a, b[..|b| - 1]);
      assert (a + b)[..|a + b| - 1] == a + b[..|b| - 1];
    }
  }

  lemma {:induction false} ContinuesRun<S, W, K>(p: Protocol<S, W, K>, start: S, a: seq<Step<W, K>>, b: seq<Step<W, K>>)
    ensures Run(p, start, a + b) == ExecAll(p, Run(p, start, a), b)
  {
    if |b| == 0 {
      assert a + b == a;
    } else {
      ContinuesRun(p, start, a, b[..|b| - 1]);
      assert (a + b)[..|a + b| - 1] == a + b[..|b| - 1];
    }
  }

  predicate Free<S, W(==), K(==)>(w: World<S, W, K>, locks: set<K>) {
    forall u :: u in w.live ==> w.live[u].held !! locks
  }

  function At<S, W, K>(w: World<S, W, K>, t: int, tx: Tx<W, K>): World<S, W, K> {
    w.(live := w.live[t := tx])
  }

  lemma {:induction false} AcquireAll<S, W, K>(p: Protocol<S, W, K>, w: World<S, W, K>, t: int, tx: Tx<W, K>, locks: set<K>)
      returns (steps: seq<Step<W, K>>)
    requires t !in w.live && Free(w, locks)
    ensures ExecAll(p, At(w, t, tx), steps) == At(w, t, tx.(held := tx.held + locks))
    decreases |locks|
  {
    if locks == {} {
      steps := [];
      assert tx.held + locks == tx.held;
    } else {
      var lock :| lock in locks;
      var tx1 := tx.(held := tx.held + {lock});
      assert Exec(p, At(w, t, tx), Acquire(t, lock)) == At(w, t, tx1);
      var rest := AcquireAll(p, w, t, tx1, locks - {lock});
      Then(p, At(w, t, tx), [], Acquire(t, lock));
      Chained(p, At(w, t, tx), [] + [Acquire(t, lock)], rest);
      assert tx.held + {lock} + (locks - {lock}) == tx.held + locks;
      steps := [] + [Acquire(t, lock)] + rest;
    }
  }

  lemma WriteStep<S, W, K>(p: Protocol<S, W, K>, w: World<S, W, K>, t: int, write: W)
    requires p.check(w.committed, write)
    ensures Exec(p, At(w, t, Tx(AllLocks(p, write), [], false, 0)), Write(t, write))
         == At(w, t, Tx(AllLocks(p, write), [write], false, 0))
  {
    assert [] + [write] == [write];
  }

  lemma ApplyOne<S, W, K>(p: Protocol<S, W, K>, s: S, write: W)
    ensures ApplyAll(p, s, [write]) == p.apply(s, write)
  {
    assert [write][..0] == [];
  }

  lemma CommitSteps<S, W, K>(p: Protocol<S, W, K>, w: World<S, W, K>, t: int, write: W)
    requires t !in w.live && p.lateCheck(p.apply(w.committed, write), write)
    ensures var w1 := At(w, t, Tx(AllLocks(p, write), [write], false, 0));
            ExecAll(p, w1, [] + [StartCommit(t)] + [Validate(t)] + [Commit(t)]) == w.(committed := p.apply(w.committed, write))
  {
    var w1 := At(w, t, Tx(AllLocks(p, write), [write], false, 0));
    ApplyOne(p, w.committed, write);
    Then(p, w1, [], StartCommit(t));
    Then(p, w1, [] + [StartCommit(t)], Validate(t));
    Then(p, w1, [] + [StartCommit(t)] + [Validate(t)], Commit(t));
    assert w1.live - {t} == w.live;
  }

  /** In any world, a write whose locks nobody holds and whose checks pass can be committed by a transaction of its own,
      and then has exactly its effect. */
  lemma CommitsAlone<S, W, K>(p: Protocol<S, W, K>, w: World<S, W, K>, t: int, write: W) returns (steps: seq<Step<W, K>>)
    requires t !in w.live && Free(w, AllLocks(p, write))
    requires p.check(w.committed, write) && p.lateCheck(p.apply(w.committed, write), write)
    ensures ExecAll(p, w, steps) == w.(committed := p.apply(w.committed, write))
  {
    var tx := Tx({}, [], false, 0);
    Then(p, w, [], Begin(t));
    var locking := AcquireAll(p, w, t, tx, AllLocks(p, write));
    assert {} + AllLocks(p, write) == AllLocks(p, write);
    var a := [] + [Begin(t)] + locking;
    Chained(p, w, [] + [Begin(t)], locking);
    Then(p, w, a, Write(t, write));
    WriteStep(p, w, t, write);
    CommitSteps(p, w, t, write);
    Chained(p, w, a + [Write(t, write)], [] + [StartCommit(t)] + [Validate(t)] + [Commit(t)]);
    steps := a + [Write(t, write)] + ([] + [StartCommit(t)] + [Validate(t)] + [Commit(t)]);
  }

  lemma SomeMember<T>(s: set<T>) returns (x: T)
    requires s != {}
    ensures x in s
  {
    x :| x in s;
  }

  lemma RollBackOne<S, W, K>(p: Protocol<S, W, K>, w: World<S, W, K>, t: int)
    requires t in w.live
    ensures ExecAll(p, w, [] + [Abort(t)]) == w.(live := w.live - {t})
  {
    Then(p, w, [], Abort(t));
  }

  lemma {:induction false} RollBackAll<S, W, K>(p: Protocol<S, W, K>, w: World<S, W, K>) returns (steps: seq<Step<W, K>>)
    ensures ExecAll(p, w, steps) == w.(live := map[])
    decreases |w.live.Keys|
  {
    if w.live.Keys != {} {
      var t := SomeMember(w.live.Keys);
      assert (w.live - {t}).Keys == w.live.Keys - {t};
      RollBackOne(p, w, t);
      var rest := RollBackAll(p, w.(live := w.live - {t}));
      Chained(p, w, [] + [Abort(t)], rest);
      steps := [] + [Abort(t)] + rest;
    } else {
      steps := [];
      assert w.live == map[];
    }
  }

  /** Whatever transactions are under way, once they are rolled back a write whose checks pass is committed. */
  lemma NeverBlocked<S, W, K>(p: Protocol<S, W, K>, w: World<S, W, K>, t: int, write: W) returns (steps: seq<Step<W, K>>)
    requires p.check(w.committed, write) && p.lateCheck(p.apply(w.committed, write), write)
    ensures ExecAll(p, w, steps) == w.(committed := p.apply(w.committed, write), live := map[])
  {
    var freeing := RollBackAll(p, w);
    var writing := CommitsAlone(p, w.(live := map[]), t, write);
    Chained(p, w, freeing, writing);
    steps := freeing + writing;
  }
}
