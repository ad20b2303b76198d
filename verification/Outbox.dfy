/** The notification outbox: a lease protocol with a fencing token, an attempt counter and exponential
    backoff. Times are in microseconds. */
module Outbox {
  import opened Journal

  const SECOND := 1000000
  const MAX_KEY := 128

  datatype Status = Pending | Sent | Dead

  /** claimed_at and claim_token, which the claim_state constraint keeps together */
  datatype Claim = Claim(at: int, token: Id)

  datatype Row = Row(id: Id, call: string, status: Status, attempts: int, availableAt: int, createdAt: int,
                     claim: Option<Claim>, sentAt: Option<int>)

  const METHODS := {"sendMessage", "sendPhoto", "deleteMessage", "editMessageText", "editMessageReplyMarkup",
                    "answerCallbackQuery"}

  /** Worker settings; the configuration bounds both from below. */
  datatype Settings = Settings(ttl: int, maxAttempts: int)

  predicate ValidSettings(c: Settings) {
    c.ttl >= 0 && c.maxAttempts >= 1
  }

  // ----- Row transitions -----

  function NewRow(id: Id, call: string, now: int, availableAt: Option<int>): Row {
    Row(id, call, Pending, 0, if availableAt.Some? then availableAt.value else now, now, None, None)
  }

  function Requeued(row: Row, now: int): Row {
    if row.status.Dead? then row.(status := Pending, attempts := 0, availableAt := now, claim := None) else row
  }

  predicate Stale(row: Row, now: int, c: Settings) {
    row.claim.Some? && row.claim.value.at < now - c.ttl
  }

  predicate Claimable(row: Row, now: int, c: Settings) {
    && row.status.Pending?
    && row.availableAt <= now
    && (row.attempts < c.maxAttempts || Stale(row, now, c))
    && (row.claim.None? || Stale(row, now, c))
  }

  function Claimed(row: Row, now: int, token: Id, c: Settings): Row {
    row.(claim := Some(Claim(now, token)),
         attempts := if row.attempts >= c.maxAttempts && Stale(row, now, c) then row.attempts else row.attempts + 1)
  }

  predicate Owns(row: Row, token: Id) {
    row.status.Pending? && row.claim.Some? && row.claim.value.token == token
  }

  function MarkedSent(row: Row, now: int): Row {
    row.(status := Sent, sentAt := Some(now), claim := None)
  }

  function Power(n: nat): nat {
    if n == 0 then 1 else 2 * Power(n - 1)
  }

  function Min(a: int, b: int): int {
    if a < b then a else b
  }

  /** retry_delay_seconds */
  function RetryDelay(attempts: int): int {
    var exponent := Min(attempts - 1, 8);
    Min(300, Power(if exponent < 0 then 0 else exponent))
  }

  function MarkedFailed(row: Row, now: int, c: Settings): Row {
    if row.attempts >= c.maxAttempts then row.(claim := None, status := Dead)
    else row.(claim := None, availableAt := now + RetryDelay(row.attempts) * SECOND)
  }

  /** Account reset withdraws an unclaimed pending row. */
  function Withdrawn(row: Row): Row {
    if row.status.Pending? && row.claim.None? then row.(status := Dead) else row
  }

  // ----- The table -----

  function Eligible(rows: map<string, Row>, now: int, c: Settings, locked: set<string>): set<string> {
    set key | key in rows && key !in locked && Claimable(rows[key], now, c)
  }

  predicate Before(a: Row, b: Row) {
    a.availableAt < b.availableAt
    || (a.availableAt == b.availableAt
        && (a.createdAt < b.createdAt || (a.createdAt == b.createdAt && a.id <= b.id)))
  }

  /** The first `batch` eligible keys in order, each once. */
  predicate FirstOf(rows: map<string, Row>, eligible: set<string>, batch: nat, picked: seq<string>) {
    && eligible <= rows.Keys
    && |picked| == Min(batch, |eligible|)
    && (forall k :: 0 <= k < |picked| ==> picked[k] in eligible)
    && (forall i, k :: 0 <= i < k < |picked| ==> picked[i] != picked[k] && Before(rows[picked[i]], rows[picked[k]]))
    && (forall k, key :: 0 <= k < |picked| && key in eligible && key !in picked ==> Before(rows[picked[k]], rows[key]))
  }

  /** The table after the claim loop. */
  function ClaimAll(rows: map<string, Row>, picked: seq<string>, tokens: seq<Id>, now: int, c: Settings): (r: map<string, Row>)
    requires |picked| <= |tokens|
    ensures r.Keys == rows.Keys
  {
    if |picked| == 0 then rows
    else
      var n := |picked| - 1;
      var earlier := ClaimAll(rows, picked[..n], tokens, now, c);
      if picked[n] in earlier then earlier[picked[n] := Claimed(earlier[picked[n]], now, tokens[n], c)] else earlier
  }

  lemma LastPicked(picked: seq<string>)
    requires |picked| > 0 && forall i, k :: 0 <= i < k < |picked| ==> picked[i] != picked[k]
    ensures picked[|picked| - 1] !in picked[..|picked| - 1]
    ensures forall key :: key in picked <==> key in picked[..|picked| - 1] || key == picked[|picked| - 1]
  {
    assert picked == picked[..|picked| - 1] + [picked[|picked| - 1]];
  }

  /** Rows not picked stay. */
  lemma {:induction false} ClaimAllOthers(rows: map<string, Row>, picked: seq<string>, tokens: seq<Id>, now: int, c: Settings, key: string)
    requires |picked| <= |tokens| && key in rows && key !in picked
    ensures ClaimAll(rows, picked, tokens, now, c)[key] == rows[key]
  {
    if |picked| != 0 {
      var n := |picked| - 1;
      assert picked[n] in picked && forall k :: 0 <= k < n ==> picked[..n][k] in picked;
      ClaimAllOthers(rows, picked[..n], tokens, now, c, key);
    }
  }

  lemma {:induction false} ClaimAllAt(rows: map<string, Row>, picked: seq<string>, tokens: seq<Id>, now: int, c: Settings, k: nat)
    requires k < |picked| <= |tokens| && picked[k] in rows
    requires forall i, j :: 0 <= i < j < |picked| ==> picked[i] != picked[j]
    ensures ClaimAll(rows, picked, tokens, now, c)[picked[k]] == Claimed(rows[picked[k]], now, tokens[k], c)
  {
    var n := |picked| - 1;
    if k == n {
      LastPicked(picked);
      ClaimAllOthers(rows, picked[..n], tokens, now, c, picked[n]);
    } else {
      assert picked[..n][k] == picked[k] && picked[k] != picked[n];
      ClaimAllAt(rows, picked[..n], tokens, now, c, k);
    }
  }

  /** Each picked row is claimed once, under its own token; every other row stays. */
  lemma ClaimAllRows(rows: map<string, Row>, picked: seq<string>, tokens: seq<Id>, now: int, c: Settings)
    requires |picked| <= |tokens|
    requires forall i, k :: 0 <= i < k < |picked| ==> picked[i] != picked[k]
    ensures forall key :: key in rows && key !in picked ==> ClaimAll(rows, picked, tokens, now, c)[key] == rows[key]
    ensures forall k :: 0 <= k < |picked| && picked[k] in rows ==>
              ClaimAll(rows, picked, tokens, now, c)[picked[k]] == Claimed(rows[picked[k]], now, tokens[k], c)
  {
    forall key | key in rows && key !in picked ensures ClaimAll(rows, picked, tokens, now, c)[key] == rows[key] {
      ClaimAllOthers(rows, picked, tokens, now, c, key);
    }
    forall k | 0 <= k < |picked| && picked[k] in rows
      ensures ClaimAll(rows, picked, tokens, now, c)[picked[k]] == Claimed(rows[picked[k]], now, tokens[k], c)
    {
      ClaimAllAt(rows, picked, tokens, now, c, k);
    }
  }

  /** One round of the claim loop. */
  lemma ClaimNext(rows: map<string, Row>, picked: seq<string>, n: nat, tokens: seq<Id>, now: int, c: Settings)
    requires n < |picked| <= |tokens| && picked[n] in rows
    requires forall i, k :: 0 <= i < k < |picked| ==> picked[i] != picked[k]
    ensures ClaimAll(rows, picked[..n], tokens, now, c)[picked[n]] == rows[picked[n]]
    ensures ClaimAll(rows, picked[..n + 1], tokens, now, c)
         == ClaimAll(rows, picked[..n], tokens, now, c)[picked[n] := Claimed(rows[picked[n]], now, tokens[n], c)]
  {
    ClaimAllRows(rows, picked[..n], tokens, now, c);
    assert picked[..n + 1][..n] == picked[..n];
    assert picked[n] !in picked[..n];
  }

  /** A claim handed to a worker. */
  datatype Handed = Handed(key: string, token: Id, attempts: int)

  /** What the worker is told about a row it claimed. */
  function Hand(rows: map<string, Row>, key: string, token: Id, now: int, c: Settings): Handed
    requires key in rows
  {
    Handed(key, token, Claimed(rows[key], now, token, c).attempts)
  }

  datatype EnqueueError = UnsupportedMethod | InvalidKey

  /** notification_outbox by its unique dedupe key. */
  class Table {
    var rows: map<string, Row>

    constructor ()
      ensures rows == map[]
    {
      rows := map[];
    }

    method Enqueue(key: string, call: string, id: Id, now: int, availableAt: Option<int>, requeueDead: bool)
      returns (error: Option<EnqueueError>)
      modifies this
      ensures error == if call !in METHODS then Some(UnsupportedMethod)
                       else if key == "" || |key| > MAX_KEY then Some(InvalidKey) else None
      ensures error.Some? ==> rows == old(rows)
      ensures error.None? ==> rows == old(rows)[key :=
                if key !in old(rows) then NewRow(id, call, now, availableAt)
                else if requeueDead then Requeued(old(rows)[key], now) else old(rows)[key]]
    {
      if call !in METHODS {
        return Some(UnsupportedMethod);
      }
      if key == "" || |key| > MAX_KEY {
        return Some(InvalidKey);
      }
      if key !in rows {
        rows := rows[key := NewRow(id, call, now, availableAt)];
      } else if requeueDead && rows[key].status.Dead? {
        rows := rows[key := rows[key].(status := Pending, attempts := 0, availableAt := now, claim := None)];
      }
      return None;
    }

    /** ORDER BY available_at, created_at, id LIMIT batch FOR UPDATE SKIP LOCKED */
    method SelectBatch(batch: nat, now: int, c: Settings, locked: set<string>) returns (picked: seq<string>)
      ensures FirstOf(rows, Eligible(rows, now, c, locked), batch, picked)
    {
      var eligible := Eligible(rows, now, c, locked);
      var rest := eligible;
      picked := [];
      while |picked| < batch && rest != {}
        invariant rest <= eligible && |picked| <= batch && |picked| + |rest| == |eligible|
        invariant forall key :: key in rest <==> key in eligible && key !in picked
        invariant forall k :: 0 <= k < |picked| ==> picked[k] in eligible
        invariant forall i, k :: 0 <= i < k < |picked| ==> picked[i] != picked[k] && Before(rows[picked[i]], rows[picked[k]])
        invariant forall k, key :: 0 <= k < |picked| && key in rest ==> Before(rows[picked[k]], rows[key])
        decreases |rest|
      {
        var first := First(rest);
        picked := picked + [first];
        rest := rest - {first};
      }
    }

    method First(keys: set<string>) returns (first: string)
      requires keys != {} && keys <= rows.Keys
      ensures first in keys && forall key :: key in keys ==> Before(rows[first], rows[key])
    {
      first :| first in keys;
      var rest := keys - {first};
      while rest != {}
        invariant first in keys && rest <= keys
        invariant forall key :: key in keys - rest ==> Before(rows[first], rows[key])
        decreases |rest|
      {
        var next :| next in rest;
        if !Before(rows[first], rows[next]) {
          first := next;
        }
        rest := rest - {next};
      }
    }

    /** The body of the claim loop. */
    method ClaimRow(key: string, token: Id, now: int, c: Settings) returns (attempts: int)
      requires key in rows
      modifies this
      ensures rows == old(rows)[key := Claimed(old(rows)[key], now, token, c)]
      ensures attempts == rows[key].attempts
    {
      var row := rows[key];
      var staleFinal := row.attempts >= c.maxAttempts && row.claim.Some? && row.claim.value.at < now - c.ttl;
      attempts := row.attempts;
      if !staleFinal {
        attempts := attempts + 1;
      }
      rows := rows[key := row.(claim := Some(Claim(now, token)), attempts := attempts)];
    }

    method ClaimPicked(picked: seq<string>, tokens: seq<Id>, now: int, c: Settings) returns (handed: seq<Handed>)
      requires |picked| <= |tokens| && forall k :: 0 <= k < |picked| ==> picked[k] in rows
      requires forall i, k :: 0 <= i < k < |picked| ==> picked[i] != picked[k]
      modifies this
      ensures rows == ClaimAll(old(rows), picked, tokens, now, c)
      ensures |handed| == |picked|
      ensures forall k :: 0 <= k < |picked| ==> handed[k] == Hand(old(rows), picked[k], tokens[k], now, c)
    {
      handed := [];
      var n := 0;
      assert picked[..0] == [];
      while n < |picked|
        invariant 0 <= n <= |picked| && |handed| == n
        invariant rows == ClaimAll(old(rows), picked[..n], tokens, now, c)
        invariant forall k :: 0 <= k < n ==> handed[k] == Hand(old(rows), picked[k], tokens[k], now, c)
      {
        ClaimNext(old(rows), picked, n, tokens, now, c);
        var attempts := ClaimRow(picked[n], tokens[n], now, c);
        handed := handed + [Handed(picked[n], tokens[n], attempts)];
        n := n + 1;
      }
      assert picked[..n] == picked;
    }

    /** claim_notification_batch; `tokens` are the fresh uuids the loop draws. */
    method ClaimBatch(batch: nat, now: int, c: Settings, locked: set<string>, tokens: seq<Id>)
      returns (picked: seq<string>, handed: seq<Handed>)
      requires |tokens| == batch
      modifies this
      ensures FirstOf(old(rows), Eligible(old(rows), now, c, locked), batch, picked)
      ensures rows == ClaimAll(old(rows), picked, tokens, now, c)
      ensures |handed| == |picked|
      ensures forall k :: 0 <= k < |picked| ==> handed[k] == Hand(old(rows), picked[k], tokens[k], now, c)
    {
      picked := SelectBatch(batch, now, c, locked);
      handed := ClaimPicked(picked, tokens, now, c);
    }

    method MarkSent(key: string, token: Id, now: int) returns (done: bool)
      modifies this
      ensures done == (key in old(rows) && Owns(old(rows)[key], token))
      ensures rows == if done then old(rows)[key := MarkedSent(old(rows)[key], now)] else old(rows)
    {
      if key !in rows || !Owns(rows[key], token) {
        return false;
      }
      rows := rows[key := rows[key].(status := Sent, sentAt := Some(now), claim := None)];
      return true;
    }

    method MarkFailed(key: string, token: Id, now: int, c: Settings) returns (done: bool)
      modifies this
      ensures done == (key in old(rows) && Owns(old(rows)[key], token))
      ensures rows == if done then old(rows)[key := MarkedFailed(old(rows)[key], now, c)] else old(rows)
    {
      if key !in rows || !Owns(rows[key], token) {
        return false;
      }
      var row := rows[key].(claim := None);
      if row.attempts >= c.maxAttempts {
        row := row.(status := Dead);
      } else {
        row := row.(availableAt := now + RetryDelay(row.attempts) * SECOND);
      }
      rows := rows[key := row];
      return true;
    }
  }
}
