/** The life of one outbox row under any number of workers: every step is one committed transaction that
    holds the row's lock, with its own reading of the clock. */
module OutboxRuns {
  import opened Journal
  import opened Outbox

  datatype Step =
    | Enqueue(now: int, availableAt: Option<int>, requeueDead: bool)
    | Claiming(now: int, token: Id)
    | Finish(now: int, token: Id, sent: bool)
    | Withdraw(now: int)

  /** The step changes the row in its own role; otherwise it finds nothing to do. */
  predicate Effective(row: Option<Row>, s: Step, c: Settings) {
    match s
    case Enqueue(_, _, requeue) => row.None? || (requeue && row.value.status.Dead?)
    case Claiming(now, _) => row.Some? && Claimable(row.value, now, c)
    case Finish(_, token, _) => row.Some? && Owns(row.value, token)
    case Withdraw(_) => row.Some? && row.value.status.Pending? && row.value.claim.None?
  }

  function Exec(row: Option<Row>, s: Step, c: Settings): Option<Row> {
    if !Effective(row, s, c) then row
    else match s
      case Enqueue(now, at, _) => Some(if row.None? then NewRow(0, "sendMessage", now, at) else Requeued(row.value, now))
      case Claiming(now, token) => Some(Claimed(row.value, now, token, c))
      case Finish(now, _, sent) => Some(if sent then MarkedSent(row.value, now) else MarkedFailed(row.value, now, c))
      case Withdraw(_) => Some(Withdrawn(row.value))
  }

  function After(steps: seq<Step>, c: Settings): Option<Row> {
    if |steps| == 0 then None else Exec(After(steps[..|steps| - 1], c), steps[|steps| - 1], c)
  }

  /** The n-th step of a run took effect. */
  predicate Took(steps: seq<Step>, n: nat, c: Settings)
    requires n < |steps|
  {
    Effective(After(steps[..n], c), steps[n], c)
  }

  /** The claim transaction moves each row of the table by one step of its life: the picked rows are claimed,
      each under its own token, and the others stay. */
  lemma BatchIsSteps(rows: map<string, Row>, locked: set<string>, batch: nat, picked: seq<string>, tokens: seq<Id>, now: int,
                     c: Settings)
    requires FirstOf(rows, Eligible(rows, now, c, locked), batch, picked) && |tokens| == batch
    ensures forall k :: 0 <= k < |picked| ==>
              Some(ClaimAll(rows, picked, tokens, now, c)[picked[k]]) == Exec(Some(rows[picked[k]]), Claiming(now, tokens[k]), c)
    ensures forall key :: key in rows && key !in picked ==> ClaimAll(rows, picked, tokens, now, c)[key] == rows[key]
  {
    ClaimAllRows(rows, picked, tokens, now, c);
  }

  // ----- No row is stuck -----

  predicate RowOk(row: Row, c: Settings) {
    && 0 <= row.attempts
    && (row.status.Pending? && row.claim.None? ==> row.attempts < c.maxAttempts)
    && (row.claim.Some? ==> row.status.Pending? && 1 <= row.attempts <= c.maxAttempts && row.availableAt <= row.claim.value.at)
    && (row.status.Sent? <==> row.sentAt.Some?)
  }

  lemma {:induction false} RowsStayOk(steps: seq<Step>, c: Settings)
    requires ValidSettings(c)
    ensures After(steps, c).Some? ==> RowOk(After(steps, c).value, c)
  {
    if |steps| != 0 {
      RowsStayOk(steps[..|steps| - 1], c);
    }
  }

  /** In every run a pending row is claimable exactly from available_at on if unclaimed, and exactly
      strictly after claimed_at plus the TTL if claimed. */
  lemma {:induction false} NeverStuck(steps: seq<Step>, c: Settings, now: int)
    requires ValidSettings(c) && After(steps, c).Some? && After(steps, c).value.status.Pending?
    ensures var row := After(steps, c).value;
            Claimable(row, now, c) <==>
              if row.claim.None? then now >= row.availableAt else now > row.claim.value.at + c.ttl
  {
    RowsStayOk(steps, c);
  }

  /** A sent row is never changed again. */
  lemma {:induction false} SentIsFinal(steps: seq<Step>, c: Settings, n: nat)
    requires n <= |steps| && After(steps[..n], c).Some? && After(steps[..n], c).value.status.Sent?
    ensures After(steps, c) == After(steps[..n], c)
    decreases |steps|
  {
    if n == |steps| {
      assert steps[..n] == steps;
    } else {
      assert steps[..|steps| - 1][..n] == steps[..n];
      SentIsFinal(steps[..|steps| - 1], c, n);
    }
  }

  // ----- Leaving PENDING -----

  /** Claims since the row was last queued. */
  function Claims(steps: seq<Step>, c: Settings): nat {
    if |steps| == 0 then 0
    else
      var front, s := steps[..|steps| - 1], steps[|steps| - 1];
      if !Took(steps, |steps| - 1, c) then Claims(front, c)
      else if s.Enqueue? then 0
      else if s.Claiming? then Claims(front, c) + 1
      else Claims(front, c)
  }

  /** No worker abandons a claim: every claim that takes effect finds the row unclaimed. */
  predicate EveryClaimFinished(steps: seq<Step>, c: Settings) {
    forall n :: 0 <= n < |steps| && steps[n].Claiming? && Took(steps, n, c) ==> After(steps[..n], c).value.claim.None?
  }

  lemma {:induction false} AttemptsCountClaims(steps: seq<Step>, c: Settings)
    requires ValidSettings(c) && EveryClaimFinished(steps, c)
    ensures After(steps, c).Some? ==> After(steps, c).value.attempts == Claims(steps, c)
    ensures After(steps, c).None? ==> Claims(steps, c) == 0
  {
    if |steps| != 0 {
      var front := steps[..|steps| - 1];
      forall n | 0 <= n < |front| && front[n].Claiming? && Took(front, n, c) ensures After(front[..n], c).value.claim.None? {
        assert front[..n] == steps[..n];
        assert Took(steps, n, c);
      }
      AttemptsCountClaims(front, c);
      RowsStayOk(front, c);
    }
  }

  /** If every claim is finished, a row is pending after fewer than max_attempts finished claims only, and is
      never claimed more than max_attempts times. */
  lemma {:induction false} LeavesPending(steps: seq<Step>, c: Settings)
    requires ValidSettings(c) && EveryClaimFinished(steps, c)
    requires After(steps, c).Some? && After(steps, c).value.status.Pending?
    ensures Claims(steps, c) <= c.maxAttempts
    ensures After(steps, c).value.claim.None? ==> Claims(steps, c) < c.maxAttempts
  {
    AttemptsCountClaims(steps, c);
    RowsStayOk(steps, c);
  }

  // ----- Leases and tokens -----

  /** Between i and k the row is neither finished nor queued again. */
  predicate Unfinished(steps: seq<Step>, i: nat, k: nat, c: Settings)
    requires k <= |steps|
  {
    forall n :: i < n < k && !steps[n].Claiming? ==> !Took(steps, n, c)
  }

  lemma {:induction false} LeaseKept(steps: seq<Step>, i: nat, k: nat, c: Settings)
    requires ValidSettings(c) && i < k <= |steps| && steps[i].Claiming? && Took(steps, i, c) && Unfinished(steps, i, k, c)
    ensures var row := After(steps[..k], c);
            row.Some? && row.value.status.Pending? && row.value.claim.Some? && row.value.claim.value.at >= steps[i].now
  {
    assert steps[..k][..k - 1] == steps[..k - 1];
    if k > i + 1 {
      LeaseKept(steps, i, k - 1, c);
      assert !steps[k - 1].Claiming? ==> !Took(steps, k - 1, c);
    }
  }

  /** Two claims of a row with nothing finished between them are more than the TTL apart. */
  lemma ClaimsApart(steps: seq<Step>, i: nat, k: nat, c: Settings)
    requires ValidSettings(c) && i < k < |steps| && Unfinished(steps, i, k, c)
    requires steps[i].Claiming? && Took(steps, i, c) && steps[k].Claiming? && Took(steps, k, c)
    ensures steps[k].now - steps[i].now > c.ttl
  {
    LeaseKept(steps, i, k, c);
  }

  /** Step i is the last claim before k that took effect. */
  predicate LatestClaim(steps: seq<Step>, i: nat, k: nat, c: Settings)
    requires k <= |steps|
  {
    i < k && steps[i].Claiming? && Took(steps, i, c)
    && forall n :: i < n < k && steps[n].Claiming? ==> !Took(steps, n, c)
  }

  /** Whatever happened since, a claim on the row carries the token of the latest claim. */
  lemma {:induction false} ClaimIsLatest(steps: seq<Step>, i: nat, k: nat, c: Settings)
    requires k <= |steps| && LatestClaim(steps, i, k, c)
    ensures After(steps[..k], c).Some?
    ensures After(steps[..k], c).value.claim.Some? ==> After(steps[..k], c).value.claim.value.token == steps[i].token
  {
    assert steps[..k][..k - 1] == steps[..k - 1];
    if k > i + 1 {
      ClaimIsLatest(steps, i, k - 1, c);
    }
  }

  /** Only the token of the latest claim finishes anything, whatever took effect since; and it does finish the
      row if nothing did. */
  lemma {:induction false} OnlyLatestToken(steps: seq<Step>, i: nat, k: nat, c: Settings)
    requires k < |steps| && LatestClaim(steps, i, k, c) && steps[k].Finish?
    ensures Took(steps, k, c) ==> steps[k].token == steps[i].token
    ensures (forall n :: i < n < k ==> !Took(steps, n, c)) ==> (Took(steps, k, c) <==> steps[k].token == steps[i].token)
  {
    ClaimIsLatest(steps, i, k, c);
    if forall n :: i < n < k ==> !Took(steps, n, c) {
      HeldToken(steps, i, k, c);
    }
  }

  lemma {:induction false} HeldToken(steps: seq<Step>, i: nat, k: nat, c: Settings)
    requires i < k <= |steps| && steps[i].Claiming? && Took(steps, i, c)
    requires forall n :: i < n < k ==> !Took(steps, n, c)
    ensures After(steps[..k], c) == After(steps[..i + 1], c)
    ensures After(steps[..k], c).Some? && Owns(After(steps[..k], c).value, steps[i].token)
  {
    assert steps[..k][..k - 1] == steps[..k - 1];
    if k > i + 1 {
      HeldToken(steps, i, k - 1, c);
      assert !Took(steps, k - 1, c);
    }
  }

  /** uuid4: no two claims draw the same token. */
  predicate FreshTokens(steps: seq<Step>) {
    forall i, k :: 0 <= i < k < |steps| && steps[i].Claiming? && steps[k].Claiming? ==> steps[i].token != steps[k].token
  }

  /** A token held after n steps was drawn by one of them. */
  lemma {:induction false} TokenDrawn(steps: seq<Step>, n: nat, c: Settings)
    requires n <= |steps| && After(steps[..n], c).Some? && After(steps[..n], c).value.claim.Some?
    ensures exists i :: 0 <= i < n && steps[i].Claiming? && steps[i].token == After(steps[..n], c).value.claim.value.token
  {
    if n != 0 {
      assert steps[..n][..n - 1] == steps[..n - 1];
      if !(steps[n - 1].Claiming? && Took(steps, n - 1, c)) {
        TokenDrawn(steps, n - 1, c);
      }
    }
  }

  /** The latest claim that took effect among steps j..k - 1. */
  lemma {:induction false} LatestFrom(steps: seq<Step>, j: nat, k: nat, c: Settings) returns (i: nat)
    requires j < k <= |steps| && steps[j].Claiming? && Took(steps, j, c)
    ensures j <= i && LatestClaim(steps, i, k, c)
  {
    if steps[k - 1].Claiming? && Took(steps, k - 1, c) {
      i := k - 1;
    } else {
      i := LatestFrom(steps, j, k - 1, c);
    }
  }

  /** Fencing: once a later claim took effect, a late finish under the earlier token changes nothing, also after
      the row was finished, failed or queued again in between. */
  lemma {:induction false} SupersededToken(steps: seq<Step>, i: nat, j: nat, k: nat, c: Settings)
    requires FreshTokens(steps) && i < j < k < |steps|
    requires steps[i].Claiming? && steps[j].Claiming? && Took(steps, j, c)
    requires steps[k].Finish? && steps[k].token == steps[i].token
    ensures !Took(steps, k, c)
  {
    var latest := LatestFrom(steps, j, k, c);
    OnlyLatestToken(steps, latest, k, c);
    assert steps[i].token != steps[latest].token;
  }

  /** After its use a token never owns the row again. */
  lemma {:induction false} SpentToken(steps: seq<Step>, i: nat, k: nat, c: Settings)
    requires FreshTokens(steps) && i < k <= |steps| && steps[i].Finish? && Took(steps, i, c)
    ensures After(steps[..k], c).Some? && !Owns(After(steps[..k], c).value, steps[i].token)
  {
    assert steps[..k][..k - 1] == steps[..k - 1];
    if k > i + 1 {
      SpentToken(steps, i, k - 1, c);
      TokenDrawn(steps, i, c);
    }
  }

  /** Each token finishes at most once. */
  lemma FinishesOnce(steps: seq<Step>, i: nat, k: nat, c: Settings)
    requires FreshTokens(steps) && i < k < |steps| && steps[i].Finish? && steps[k].Finish?
    requires steps[i].token == steps[k].token && Took(steps, i, c)
    ensures !Took(steps, k, c)
  {
    SpentToken(steps, i, k, c);
  }

  // ----- Backoff -----

  /** History since the row was last queued: recorded failures and the time of the first claim. */
  datatype History = History(failures: nat, firstClaim: Option<int>)

  function Past(steps: seq<Step>, c: Settings): History {
    if |steps| == 0 then History(0, None)
    else
      var past, s := Past(steps[..|steps| - 1], c), steps[|steps| - 1];
      if !Took(steps, |steps| - 1, c) then past
      else match s
        case Enqueue(_, _, _) => History(0, None)
        case Claiming(now, _) => if past.firstClaim.None? then past.(firstClaim := Some(now)) else past
        case Finish(_, _, sent) => if sent then past else past.(failures := past.failures + 1)
        case Withdraw(_) => past
  }

  /** 1 + 2 + 4 + ... with every term capped at 256: seconds of delay after n failures. */
  function Backoff(n: nat): nat {
    if n == 0 then 0 else Backoff(n - 1) + RetryDelay(n)
  }

  predicate Nondecreasing(steps: seq<Step>) {
    forall i, k :: 0 <= i < k < |steps| ==> steps[i].now <= steps[k].now
  }

  lemma {:induction false} PowerGrows(a: nat, b: nat)
    requires a <= b
    ensures 1 <= Power(a) <= Power(b)
  {
    if b != 0 {
      PowerGrows(if a < b then a else a - 1, b - 1);
    }
  }

  lemma DelayGrows(a: int, b: int)
    requires a <= b
    ensures 1 <= RetryDelay(a) <= RetryDelay(b)
  {
    var low, high := Min(a - 1, 8), Min(b - 1, 8);
    PowerGrows(if low < 0 then 0 else low, if high < 0 then 0 else high);
  }

  /** Up to nine failures the delays add up to 2^n - 1 seconds. */
  lemma {:induction false} BackoffDoubles(n: nat)
    requires n <= 9
    ensures Backoff(n) == Power(n) - 1
  {
    if n != 0 {
      BackoffDoubles(n - 1);
      PowerGrows(n - 1, 8);
      assert Power(8) == 256 by { PowerTable(); }
    }
  }

  lemma PowerTable()
    ensures Power(8) == 256
  {
    assert Power(4) == 16;
    assert Power(6) == 4 * Power(4);
  }

  /** The schedule so far: attempts at least failures, and the clock never behind the backoff. */
  predicate Scheduled(row: Row, past: History) {
    && past.failures <= row.attempts
    && (row.claim.Some? ==> past.failures < row.attempts && past.firstClaim.Some?
                            && row.claim.value.at >= past.firstClaim.value + Backoff(past.failures) * SECOND)
    && (row.status.Pending? && past.failures > 0 ==>
          past.firstClaim.Some? && row.availableAt >= past.firstClaim.value + Backoff(past.failures) * SECOND)
    && (past.firstClaim.None? ==> past.failures == 0)
    && (past.failures == 0 && past.firstClaim.Some? && row.status.Pending? ==> row.claim.Some?)
  }

  lemma {:induction false} ScheduleKept(steps: seq<Step>, c: Settings)
    requires ValidSettings(c) && Nondecreasing(steps)
    ensures After(steps, c).Some? ==> Scheduled(After(steps, c).value, Past(steps, c))
    ensures After(steps, c).Some? && After(steps, c).value.claim.Some?
            ==> exists i :: 0 <= i < |steps| && steps[i].now == After(steps, c).value.claim.value.at
  {
    if |steps| != 0 {
      var front, s := steps[..|steps| - 1], steps[|steps| - 1];
      ScheduleKept(front, c);
      RowsStayOk(front, c);
      var row, past := After(front, c), Past(front, c);
      if Effective(row, s, c) {
        match s
        case Enqueue(_, _, _) =>
        case Claiming(_, _) =>
          assert steps[|steps| - 1].now == s.now;
        case Finish(now, _, sent) =>
          var i :| 0 <= i < |front| && front[i].now == row.value.claim.value.at;
          assert steps[i].now <= now;
          DelayGrows(past.failures + 1, row.value.attempts);
        case Withdraw(_) =>
      } else if row.Some? && row.value.claim.Some? {
        var i :| 0 <= i < |front| && front[i].now == row.value.claim.value.at;
        assert steps[i].now == row.value.claim.value.at;
      }
    }
  }

  /** With a nondecreasing clock, n recorded failures of a row still pending put available_at at least
      Backoff(n) seconds after its first claim: 2^n - 1 seconds for n up to nine. */
  lemma {:induction false} BackoffHolds(steps: seq<Step>, c: Settings)
    requires ValidSettings(c) && Nondecreasing(steps)
    requires After(steps, c).Some? && After(steps, c).value.status.Pending? && Past(steps, c).failures > 0
    ensures Past(steps, c).firstClaim.Some?
    ensures After(steps, c).value.availableAt >= Past(steps, c).firstClaim.value + Backoff(Past(steps, c).failures) * SECOND
    ensures Past(steps, c).failures <= 9 ==> Backoff(Past(steps, c).failures) == Power(Past(steps, c).failures) - 1
  {
    ScheduleKept(steps, c);
    if Past(steps, c).failures <= 9 {
      BackoffDoubles(Past(steps, c).failures);
    }
  }
}
