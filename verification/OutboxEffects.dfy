/** What claiming, finishing and enqueuing do to a row, and which rows a claim takes, in plain terms. */
module OutboxEffects {
  import opened Journal
  import opened Outbox
  import opened OutboxRuns

  // ----- Which rows are claimed -----

  /** Available earlier; on a tie created earlier; on a further tie with the smaller id. */
  predicate NotAfter(a: Row, b: Row) {
    && a.availableAt <= b.availableAt
    && (a.availableAt == b.availableAt ==> a.createdAt <= b.createdAt)
    && (a.availableAt == b.availableAt && a.createdAt == b.createdAt ==> a.id <= b.id)
  }

  /** Pending and due, with an attempt left and unclaimed, or with a claim older than the TTL. */
  predicate Due(row: Row, now: int, c: Settings) {
    && row.status == Pending && row.availableAt <= now
    && (if row.claim.None? then row.attempts < c.maxAttempts else row.claim.value.at < now - c.ttl)
  }

  lemma DueIff(row: Row, now: int, c: Settings)
    ensures Claimable(row, now, c) <==> Due(row, now, c)
  {
  }

  /** The rows taken are due, not locked by others, and in order; and no due row left out comes before one taken. */
  lemma PickedInOrder(rows: map<string, Row>, locked: set<string>, batch: nat, picked: seq<string>, now: int, c: Settings)
    requires FirstOf(rows, Eligible(rows, now, c, locked), batch, picked)
    ensures forall k :: 0 <= k < |picked| ==> picked[k] in rows && picked[k] !in locked && Due(rows[picked[k]], now, c)
    ensures forall i, k :: 0 <= i < k < |picked| ==> picked[i] != picked[k] && NotAfter(rows[picked[i]], rows[picked[k]])
    ensures forall k, key :: 0 <= k < |picked| && key in rows && key !in locked && Due(rows[key], now, c) && key !in picked ==>
              NotAfter(rows[picked[k]], rows[key])
  {
    forall key | key in rows ensures Claimable(rows[key], now, c) <==> Due(rows[key], now, c) {
      DueIff(rows[key], now, c);
    }
  }

  /** As many rows as asked for, or all that are due. */
  lemma PickedEnough(rows: map<string, Row>, locked: set<string>, batch: nat, picked: seq<string>, now: int, c: Settings)
    requires FirstOf(rows, Eligible(rows, now, c, locked), batch, picked)
    ensures |picked| <= batch
    ensures |picked| < batch ==> forall key :: key in rows && key !in locked && Due(rows[key], now, c) ==> key in picked
  {
    var eligible := Eligible(rows, now, c, locked);
    var taken := set k | 0 <= k < |picked| :: picked[k];
    if |picked| < batch {
      Distinct(picked);
      assert taken <= eligible;
      SameSize(taken, eligible);
      forall key | key in rows && key !in locked && Due(rows[key], now, c) ensures key in picked {
        DueIff(rows[key], now, c);
        assert key in eligible;
      }
    }
  }

  lemma {:induction false} Distinct(picked: seq<string>)
    requires forall i, k :: 0 <= i < k < |picked| ==> picked[i] != picked[k]
    ensures |set k | 0 <= k < |picked| :: picked[k]| == |picked|
  {
    if |picked| != 0 {
      var n := |picked| - 1;
      var front := set k | 0 <= k < n :: picked[..n][k];
      Distinct(picked[..n]);
      assert front == set k | 0 <= k < |picked[..n]| :: picked[..n][k];
      forall key ensures key in (set k | 0 <= k < |picked| :: picked[k]) <==> key in front + {picked[n]} {
        if key in front {
          var k :| 0 <= k < n && picked[..n][k] == key;
          assert picked[k] == key;
        }
        if k :| 0 <= k < |picked| && picked[k] == key {
          assert k < n ==> picked[..n][k] == key;
        }
      }
      assert (set k | 0 <= k < |picked| :: picked[k]) == front + {picked[n]};
      assert picked[n] !in front;
    } else {
      assert (set k | 0 <= k < |picked| :: picked[k]) == {};
    }
  }

  lemma SameSize(a: set<string>, b: set<string>)
    requires a <= b && |a| == |b|
    ensures a == b
  {
    assert b == a + (b - a);
  }

  /** A due row with fewer than `batch` due rows available no later than it is always claimed. */
  lemma EarlyRowIsClaimed(rows: map<string, Row>, locked: set<string>, batch: nat, picked: seq<string>, now: int, c: Settings,
                          key: string)
    requires FirstOf(rows, Eligible(rows, now, c, locked), batch, picked)
    requires key in rows && key !in locked && Due(rows[key], now, c)
    requires |set other | other in rows && other !in locked && Due(rows[other], now, c)
                          && rows[other].availableAt <= rows[key].availableAt| <= batch
    ensures key in picked
  {
    var early := set other | other in rows && other !in locked && Due(rows[other], now, c)
                             && rows[other].availableAt <= rows[key].availableAt;
    var taken := set k | 0 <= k < |picked| :: picked[k];
    PickedInOrder(rows, locked, batch, picked, now, c);
    PickedEnough(rows, locked, batch, picked, now, c);
    if key !in picked {
      Distinct(picked);
      assert |picked| == batch;
      assert taken <= early - {key};
      assert |early - {key}| == |early| - 1;
      Fewer(taken, early - {key});
    }
  }

  lemma Fewer(a: set<string>, b: set<string>)
    requires a <= b
    ensures |a| <= |b|
  {
    assert b == a + (b - a);
  }

  // ----- What a step does to a row -----

  /** Seconds until the next attempt: doubled each time, at most 256. */
  predicate Waits(attempts: int, seconds: int) {
    seconds == if attempts <= 1 then 1 else if attempts >= 9 then 256 else Power(attempts - 1)
  }

  lemma WaitsDoubled(attempts: int)
    ensures Waits(attempts, RetryDelay(attempts))
  {
    PowerTable();
    if 1 <= attempts <= 9 {
      PowerGrows(attempts - 1, 8);
    }
  }

  predicate Claimed(row: Row, now: int, token: Id, c: Settings, row': Row) {
    && row'.claim == Some(Claim(now, token)) && row'.status == row.status && row'.availableAt == row.availableAt
    && row'.attempts == (if row.claim.Some? && row.attempts >= c.maxAttempts then row.attempts else row.attempts + 1)
  }

  predicate Failed(row: Row, now: int, c: Settings, row': Row) {
    && row'.claim.None? && row'.attempts == row.attempts
    && (if row.attempts >= c.maxAttempts then row'.status == Dead && row'.availableAt == row.availableAt
        else row'.status == row.status && (row'.availableAt - now) % SECOND == 0
             && Waits(row.attempts, (row'.availableAt - now) / SECOND))
  }

  /** The effect of a step that takes effect. */
  predicate Does(row: Option<Row>, s: Step, c: Settings, row': Row) {
    && (row.Some? ==> row'.id == row.value.id && row'.call == row.value.call && row'.createdAt == row.value.createdAt)
    && match s
       case Enqueue(now, at, _) =>
         && row'.status == Pending && row'.attempts == 0 && row'.claim.None?
         && row'.availableAt == (if row.None? && at.Some? then at.value else now)
       case Claiming(now, token) => row.Some? && Claimed(row.value, now, token, c, row')
       case Finish(now, _, sent) =>
         row.Some? && if sent then row'.status == Sent && row'.sentAt == Some(now) && row'.claim.None? && row'.attempts == row.value.attempts
                      else Failed(row.value, now, c, row')
       case Withdraw(_) => row.Some? && row'.status == Dead && row'.claim.None? && row'.attempts == row.value.attempts
  }

  /** A new row carries the call, is due when asked or at once, and has had no attempt. */
  lemma EnqueuedRow(id: Id, call: string, now: int, availableAt: Option<int>)
    ensures var row := NewRow(id, call, now, availableAt);
            && row.id == id && row.call == call && row.createdAt == now && row.status == Pending && row.attempts == 0
            && row.claim.None? && row.sentAt.None? && row.availableAt == (if availableAt.Some? then availableAt.value else now)
  {
  }

  /** A worker is told the key and token of its claim and the number of the attempt. */
  lemma HandedOver(rows: map<string, Row>, key: string, token: Id, now: int, c: Settings)
    requires key in rows
    ensures var handed := Hand(rows, key, token, now, c);
            && handed.key == key && handed.token == token
            && (Due(rows[key], now, c) && (rows[key].claim.None? || rows[key].attempts < c.maxAttempts) ==>
                  handed.attempts == rows[key].attempts + 1)
            && (Due(rows[key], now, c) && rows[key].claim.Some? && rows[key].attempts >= c.maxAttempts ==>
                  handed.attempts == rows[key].attempts)
  {
  }

  /** When a step takes effect. */
  predicate Applies(row: Option<Row>, s: Step, c: Settings) {
    match s
    case Enqueue(_, _, requeue) => row.None? || (requeue && row.value.status == Dead)
    case Claiming(now, _) => row.Some? && Due(row.value, now, c)
    case Finish(_, token, _) => row.Some? && row.value.status == Pending && row.value.claim.Some? && row.value.claim.value.token == token
    case Withdraw(_) => row.Some? && row.value.status == Pending && row.value.claim.None?
  }

  /** Each step takes effect exactly when it applies, and then does what it is for; otherwise it changes nothing. */
  lemma StepDoes(row: Option<Row>, s: Step, c: Settings)
    ensures if Applies(row, s, c) then Exec(row, s, c).Some? && Does(row, s, c, Exec(row, s, c).value) else Exec(row, s, c) == row
  {
    if row.Some? {
      DueIff(row.value, s.now, c);
      WaitsDoubled(row.value.attempts);
      if s.Finish? && !s.sent && row.value.attempts < c.maxAttempts {
        WholeSeconds(s.now, RetryDelay(row.value.attempts));
      }
    }
  }

  lemma WholeSeconds(now: int, seconds: int)
    ensures (now + seconds * SECOND - now) % SECOND == 0 && (now + seconds * SECOND - now) / SECOND == seconds
  {
  }
}
