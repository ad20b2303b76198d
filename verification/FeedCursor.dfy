/** The signed cursor of the movement feed. HMAC, SHA-256, JSON text and ISO timestamps are given functions. */
module FeedCursor {
  import opened Journal
  import opened Strings
  import opened Base64Url

  const VERSION := 1
  const TTL_SECONDS := 3600
  const CLOCK_SKEW_SECONDS := 60
  const MAX_SNAPSHOT_LENGTH := 12000

  datatype Json = Null | Bool(b: bool) | Number(n: int) | Fraction(r: real) | Text(s: string)
                | List(elements: seq<Json>) | Object(fields: map<string, Json>)

  /** A point in time in microseconds since the epoch; a naive one has no offset. */
  datatype Moment = Moment(micros: int, offset: Option<int>)

  datatype State = State(snapshotAt: Moment, databaseSnapshot: string, before: Option<int>)

  type Scope = map<string, Json>

  /** `sign` includes the key and the signature domain. */
  datatype Codec = Codec(
    sign: seq<Byte> -> seq<Byte>, digest: Scope -> string,
    dumps: map<string, Json> -> seq<Byte>, loads: seq<Byte> -> Option<Json>,
    iso: Moment -> string, fromIso: string -> Option<Moment>)

  /** The text forms of what the encoder writes can be read back. */
  ghost predicate Lawful(codec: Codec) {
    && (forall state, scope, issued :: var f := Fields(codec, state, scope, issued);
                                       codec.loads(codec.dumps(f)) == Some(Object(f)))
    && (forall t: Moment :: t.offset.Some? ==> codec.fromIso(codec.iso(t)) == Some(t))
  }

  datatype Error = NaiveSnapshot | BadSnapshot | BadBefore | NaiveNow | Invalid | Unsupported | Expired | ScopeMismatch

  datatype Result<T> = Ok(value: T) | Err(error: Error)

  /** int() truncates towards zero. */
  function Seconds(t: Moment): int {
    if t.micros >= 0 then t.micros / 1000000 else -(-t.micros / 1000000)
  }

  predicate GoodSnapshot(s: string) {
    1 <= |s| <= MAX_SNAPSHOT_LENGTH
  }

  /** What the encoder accepts. */
  predicate Encodable(state: State) {
    && state.snapshotAt.offset.Some?
    && GoodSnapshot(state.databaseSnapshot)
    && (state.before.Some? ==> state.before.value > 0)
  }

  function Fields(codec: Codec, state: State, scope: Scope, issued: int): map<string, Json> {
    map["v" := Number(VERSION), "iat" := Number(issued), "snapshot_at" := Text(codec.iso(state.snapshotAt)),
        "database_snapshot" := Text(state.databaseSnapshot),
        "before" := if state.before.None? then Null else Number(state.before.value),
        "scope" := Text(codec.digest(scope))]
  }

  /** encode_movement_feed_cursor */
  function EncodeCursor(codec: Codec, state: State, scope: Scope, now: Moment): Result<string> {
    if state.snapshotAt.offset.None? then Err(NaiveSnapshot)
    else if !GoodSnapshot(state.databaseSnapshot) then Err(BadSnapshot)
    else if state.before.Some? && state.before.value <= 0 then Err(BadBefore)
    else if now.offset.None? then Err(NaiveNow)
    else
      var raw := codec.dumps(Fields(codec, state, scope, Seconds(now)));
      Ok(Encode(raw) + "." + Encode(codec.sign(raw)))
  }

  function Get(fields: map<string, Json>, key: string): Json {
    if key in fields then fields[key] else Null
  }

  /** Python compares True, 1 and 1.0 as equal. */
  predicate EqualsInt(v: Json, n: int) {
    v == Number(n) || v == Fraction(n as real) || (n == 1 && v == Bool(true)) || (n == 0 && v == Bool(false))
  }

  /** The checks on the parsed payload, in order. */
  function ReadPayload(codec: Codec, payload: Json, scope: Scope, now: Moment): Result<State> {
    if !payload.Object? then Err(Invalid)
    else
      var f := payload.fields;
      if !EqualsInt(Get(f, "v"), VERSION) then Err(Unsupported)
      else if !Get(f, "iat").Number? then Err(Invalid)
      else if now.offset.None? then Err(NaiveNow)
      else
        var age := Seconds(now) - Get(f, "iat").n;
        if age < -CLOCK_SKEW_SECONDS || age > TTL_SECONDS then Err(Expired)
        else if Get(f, "scope") != Text(codec.digest(scope)) then Err(ScopeMismatch)
        else if !Get(f, "snapshot_at").Text? then Err(Invalid)
        else
          var at := codec.fromIso(Get(f, "snapshot_at").s);
          if at.None? || at.value.offset.None? then Err(Invalid)
          else if !Get(f, "database_snapshot").Text? || !GoodSnapshot(Get(f, "database_snapshot").s) then Err(Invalid)
          else
            var before := Get(f, "before");
            if before != Null && (!before.Number? || before.n <= 0) then Err(Invalid)
            else Ok(State(at.value, Get(f, "database_snapshot").s, if before == Null then None else Some(before.n)))
  }

  /** decode_movement_feed_cursor */
  function DecodeCursor(codec: Codec, token: string, scope: Scope, now: Moment): Result<State> {
    var n := FirstDot(token);
    if n == |token| then Err(Invalid)
    else
      var raw, signature := Decode(token[..n]), Decode(token[n + 1..]);
      if raw.None? || signature.None? then Err(Invalid)
      else if signature.value != codec.sign(raw.value) then Err(Invalid)
      else
        var payload := codec.loads(raw.value);
        if payload.None? then Err(Invalid) else ReadPayload(codec, payload.value, scope, now)
  }

  // ----- The round trip -----

  /** What reading a cursor should give: the state it was issued for, within the hour and for the same scope. */
  ghost function Promised(codec: Codec, state: State, scope: Scope, issued: int, reading: Scope, now: Moment): Result<State> {
    if now.offset.None? then Err(NaiveNow)
    else if !(-60 <= Seconds(now) - issued <= 3600) then Err(Expired)
    else if codec.digest(scope) != codec.digest(reading) then Err(ScopeMismatch)
    else Ok(state)
  }

  lemma NoDot(b: seq<Byte>)
    ensures '.' !in Encode(b)
  {
    EncodedSymbols(b);
  }

  /** The token carries the payload and its signature through. */
  lemma TokenReads(codec: Codec, raw: seq<Byte>, scope: Scope, now: Moment)
    ensures DecodeCursor(codec, Encode(raw) + "." + Encode(codec.sign(raw)), scope, now)
         == if codec.loads(raw).None? then Err(Invalid) else ReadPayload(codec, codec.loads(raw).value, scope, now)
  {
    NoDot(raw);
    SplitAtDot(Encode(raw), Encode(codec.sign(raw)));
    RoundTrip(raw);
    RoundTrip(codec.sign(raw));
  }

  /** Encoding succeeds exactly for encodable states and an aware clock; decoding the token gives the state
      back exactly when its age is within -60..3600 seconds and the scope digest is the same, and names the
      failing check otherwise. */
  lemma CursorRoundTrip(codec: Codec, state: State, scope: Scope, issued: Moment, reading: Scope, now: Moment)
    requires Lawful(codec)
    ensures EncodeCursor(codec, state, scope, issued).Ok? <==> Encodable(state) && issued.offset.Some?
    ensures EncodeCursor(codec, state, scope, issued).Ok? ==>
              DecodeCursor(codec, EncodeCursor(codec, state, scope, issued).value, reading, now)
              == Promised(codec, state, scope, Seconds(issued), reading, now)
  {
    if EncodeCursor(codec, state, scope, issued).Ok? {
      var fields := Fields(codec, state, scope, Seconds(issued));
      TokenReads(codec, codec.dumps(fields), reading, now);
      PayloadReads(codec, state, scope, Seconds(issued), reading, now);
    }
  }

  lemma PayloadReads(codec: Codec, state: State, scope: Scope, issued: int, reading: Scope, now: Moment)
    requires Lawful(codec) && Encodable(state)
    ensures ReadPayload(codec, Object(Fields(codec, state, scope, issued)), reading, now)
         == Promised(codec, state, scope, issued, reading, now)
  {
    var f := Fields(codec, state, scope, issued);
    assert Get(f, "v") == Number(VERSION) && Get(f, "iat") == Number(issued);
    assert Get(f, "scope") == Text(codec.digest(scope));
    assert Get(f, "snapshot_at") == Text(codec.iso(state.snapshotAt));
    assert Get(f, "database_snapshot") == Text(state.databaseSnapshot);
    assert Get(f, "before") == if state.before.None? then Null else Number(state.before.value);
  }

  /** Whatever the decoder accepts, it can issue again: the state read from any accepted token is encodable,
      and the token carried a signature over the very bytes that were parsed. */
  lemma AcceptedIsEncodable(codec: Codec, token: string, scope: Scope, now: Moment)
    requires DecodeCursor(codec, token, scope, now).Ok?
    ensures Encodable(DecodeCursor(codec, token, scope, now).value)
    ensures EncodeCursor(codec, DecodeCursor(codec, token, scope, now).value, scope, now).Ok?
    ensures exists raw, n :: 0 <= n < |token| && Decode(token[..n]) == Some(raw) && Decode(token[n + 1..]) == Some(codec.sign(raw))
  {
    var n := FirstDot(token);
    assert Decode(token[..n]) == Some(Decode(token[..n]).value);
  }

  /** What each refusal to encode says. */
  lemma EncodeRefusalMeans(codec: Codec, state: State, scope: Scope, now: Moment)
    requires EncodeCursor(codec, state, scope, now).Err?
    ensures match EncodeCursor(codec, state, scope, now).error
            case NaiveSnapshot => state.snapshotAt.offset.None?
            case BadSnapshot => |state.databaseSnapshot| == 0 || |state.databaseSnapshot| > 12000
            case BadBefore => state.before.Some? && state.before.value <= 0
            case NaiveNow => now.offset.None?
            case _ => false
  {
  }

  /** What a payload must hold to be read as a state. */
  ghost predicate Readable(codec: Codec, payload: Json, scope: Scope, now: Moment, state: State) {
    && payload.Object? && now.offset.Some?
    && (Get(payload.fields, "v") == Number(1) || Get(payload.fields, "v") == Bool(true) || Get(payload.fields, "v") == Fraction(1.0))
    && Get(payload.fields, "iat").Number? && -60 <= Seconds(now) - Get(payload.fields, "iat").n <= 3600
    && Get(payload.fields, "scope") == Text(codec.digest(scope))
    && Get(payload.fields, "snapshot_at").Text? && codec.fromIso(Get(payload.fields, "snapshot_at").s) == Some(state.snapshotAt)
    && Get(payload.fields, "database_snapshot") == Text(state.databaseSnapshot)
    && Get(payload.fields, "before") == (if state.before.None? then Null else Number(state.before.value))
    && state.snapshotAt.offset.Some? && 1 <= |state.databaseSnapshot| <= 12000
    && (state.before.Some? ==> state.before.value >= 1)
  }

  lemma ReadsIff(codec: Codec, payload: Json, scope: Scope, now: Moment, state: State)
    ensures ReadPayload(codec, payload, scope, now) == Ok(state) <==> Readable(codec, payload, scope, now, state)
  {
  }

  /** The token's text before the first dot decodes to these bytes, the text after it to their signature, and the bytes
      parse to a payload that holds this state. */
  ghost predicate Carries(codec: Codec, token: string, scope: Scope, now: Moment, state: State, n: nat, raw: seq<Byte>, payload: Json) {
    && n < |token| && token[n] == '.' && '.' !in token[..n]
    && Decode(token[..n]) == Some(raw) && Decode(token[n + 1..]) == Some(codec.sign(raw))
    && codec.loads(raw) == Some(payload) && Readable(codec, payload, scope, now, state)
  }

  /** A token is accepted as a state exactly if it carries it. */
  lemma AcceptedIff(codec: Codec, token: string, scope: Scope, now: Moment, state: State)
    ensures DecodeCursor(codec, token, scope, now) == Ok(state)
       <==> exists n, raw, payload :: Carries(codec, token, scope, now, state, n, raw, payload)
  {
    if n, raw, payload :| Carries(codec, token, scope, now, state, n, raw, payload) {
      DotIsFirst(token, n);
      ReadsIff(codec, payload, scope, now, state);
    }
    if DecodeCursor(codec, token, scope, now) == Ok(state) {
      var dot := FirstDot(token);
      var raw := Decode(token[..dot]).value;
      var payload := codec.loads(raw).value;
      ReadsIff(codec, payload, scope, now, state);
      assert Carries(codec, token, scope, now, state, dot, raw, payload);
    }
  }

  lemma {:induction false} DotIsFirst(token: string, n: nat)
    requires n < |token| && token[n] == '.' && '.' !in token[..n]
    ensures FirstDot(token) == n
  {
    if n != 0 {
      assert token[0] == token[..n][0];
      assert token[1..][..n - 1] == token[..n][1..];
      DotIsFirst(token[1..], n - 1);
    }
  }

  /** A page's cursor issued from a decoded one and read in the same second returns the same state. */
  lemma Reissued(codec: Codec, token: string, scope: Scope, now: Moment)
    requires Lawful(codec) && DecodeCursor(codec, token, scope, now).Ok?
    ensures var state := DecodeCursor(codec, token, scope, now).value;
            DecodeCursor(codec, EncodeCursor(codec, state, scope, now).value, scope, now) == Ok(state)
  {
    AcceptedIsEncodable(codec, token, scope, now);
    CursorRoundTrip(codec, DecodeCursor(codec, token, scope, now).value, scope, now, scope, now);
  }
}
