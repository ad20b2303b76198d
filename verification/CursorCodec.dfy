/** A codec that meets the laws the cursor theorems ask for: prefix-free unary texts, read back by inversion. */
module CursorCodec {
  import opened Journal
  import opened Strings
  import opened Base64Url
  import opened FeedCursor

  function Unary(n: nat): seq<Byte> {
    if n == 0 then [0] else [1] + Unary(n - 1)
  }

  function Whole(n: int): seq<Byte> {
    if n < 0 then [1] + Unary(-n) else [0] + Unary(n)
  }

  function Letters(s: string): seq<Byte> {
    if s == "" then [0] else [1] + (Unary(s[0] as int) + Letters(s[1..]))
  }

  function Maybe(n: Option<int>): seq<Byte> {
    if n.None? then [0] else [1] + Whole(n.value)
  }

  // ----- No text is the beginning of another -----

  lemma SameHead(a: Byte, x: seq<Byte>, b: Byte, y: seq<Byte>)
    requires [a] + x == [b] + y
    ensures a == b && x == y
  {
    assert ([a] + x)[0] == a && ([b] + y)[0] == b;
    assert ([a] + x)[1..] == x && ([b] + y)[1..] == y;
  }

  lemma {:induction false} UnaryApart(a: nat, x: seq<Byte>, b: nat, y: seq<Byte>)
    requires Unary(a) + x == Unary(b) + y
    ensures a == b && x == y
  {
    var (p, q) := (if a == 0 then x else Unary(a - 1) + x, if b == 0 then y else Unary(b - 1) + y);
    assert a > 0 ==> Unary(a) + x == [1] + p by { Assoc([1 as Byte], if a > 0 then Unary(a - 1) else [], x); }
    assert b > 0 ==> Unary(b) + y == [1] + q by { Assoc([1 as Byte], if b > 0 then Unary(b - 1) else [], y); }
    SameHead(if a == 0 then 0 else 1, p, if b == 0 then 0 else 1, q);
    if a > 0 {
      UnaryApart(a - 1, x, b - 1, y);
    }
  }

  lemma WholeApart(a: int, x: seq<Byte>, b: int, y: seq<Byte>)
    requires Whole(a) + x == Whole(b) + y
    ensures a == b && x == y
  {
    var m: nat, n: nat := if a < 0 then -a else a, if b < 0 then -b else b;
    Assoc([if a < 0 then 1 as Byte else 0], Unary(m), x);
    Assoc([if b < 0 then 1 as Byte else 0], Unary(n), y);
    SameHead(if a < 0 then 1 else 0, Unary(m) + x, if b < 0 then 1 else 0, Unary(n) + y);
    UnaryApart(m, x, n, y);
  }

  lemma {:induction false} LettersApart(s: string, x: seq<Byte>, t: string, y: seq<Byte>)
    requires Letters(s) + x == Letters(t) + y
    ensures s == t && x == y
  {
    var p := if s == "" then x else Unary(s[0] as int) + (Letters(s[1..]) + x);
    var q := if t == "" then y else Unary(t[0] as int) + (Letters(t[1..]) + y);
    LettersHead(s, x);
    LettersHead(t, y);
    SameHead(if s == "" then 0 else 1, p, if t == "" then 0 else 1, q);
    if s != "" {
      UnaryApart(s[0] as int, Letters(s[1..]) + x, t[0] as int, Letters(t[1..]) + y);
      LettersApart(s[1..], x, t[1..], y);
      assert s == [s[0]] + s[1..] && t == [t[0]] + t[1..];
    }
  }

  lemma LettersHead(s: string, x: seq<Byte>)
    ensures Letters(s) + x == if s == "" then [0] + x else [1] + (Unary(s[0] as int) + (Letters(s[1..]) + x))
  {
    if s != "" {
      Assoc([1 as Byte], Unary(s[0] as int) + Letters(s[1..]), x);
      Assoc(Unary(s[0] as int), Letters(s[1..]), x);
    }
  }

  lemma MaybeApart(a: Option<int>, x: seq<Byte>, b: Option<int>, y: seq<Byte>)
    requires Maybe(a) + x == Maybe(b) + y
    ensures a == b && x == y
  {
    var (p, q) := (if a.None? then x else Whole(a.value) + x, if b.None? then y else Whole(b.value) + y);
    if a.Some? { Assoc([1 as Byte], Whole(a.value), x); }
    if b.Some? { Assoc([1 as Byte], Whole(b.value), y); }
    SameHead(if a.None? then 0 else 1, p, if b.None? then 0 else 1, q);
    if a.Some? {
      WholeApart(a.value, x, b.value, y);
    }
  }

  // ----- The payload -----

  datatype Record = Record(issued: int, at: string, snapshot: string, before: Option<int>, scope: string)

  function Bytes(r: Record): seq<Byte> {
    Whole(r.issued) + (Letters(r.at) + (Letters(r.snapshot) + (Maybe(r.before) + (Letters(r.scope) + []))))
  }

  lemma BytesApart(r: Record, q: Record)
    requires Bytes(r) == Bytes(q)
    ensures r == q
  {
    WholeApart(r.issued, Letters(r.at) + (Letters(r.snapshot) + (Maybe(r.before) + (Letters(r.scope) + []))),
               q.issued, Letters(q.at) + (Letters(q.snapshot) + (Maybe(q.before) + (Letters(q.scope) + []))));
    LettersApart(r.at, Letters(r.snapshot) + (Maybe(r.before) + (Letters(r.scope) + [])),
                 q.at, Letters(q.snapshot) + (Maybe(q.before) + (Letters(q.scope) + [])));
    LettersApart(r.snapshot, Maybe(r.before) + (Letters(r.scope) + []), q.snapshot, Maybe(q.before) + (Letters(q.scope) + []));
    MaybeApart(r.before, Letters(r.scope) + [], q.before, Letters(q.scope) + []);
    LettersApart(r.scope, [], q.scope, []);
  }

  function FieldsOf(r: Record): map<string, Json> {
    map["v" := Number(VERSION), "iat" := Number(r.issued), "snapshot_at" := Text(r.at), "database_snapshot" := Text(r.snapshot),
        "before" := if r.before.None? then Null else Number(r.before.value), "scope" := Text(r.scope)]
  }

  function Str(v: Json): string {
    if v.Text? then v.s else ""
  }

  function Int(v: Json): int {
    if v.Number? then v.n else 0
  }

  function RecordOf(f: map<string, Json>): Record {
    Record(Int(Get(f, "iat")), Str(Get(f, "snapshot_at")), Str(Get(f, "database_snapshot")),
           if Get(f, "before") == Null then None else Some(Int(Get(f, "before"))), Str(Get(f, "scope")))
  }

  ghost function Loads(b: seq<Byte>): Option<Json> {
    if exists r :: Bytes(r) == b then var r :| Bytes(r) == b; Some(Object(FieldsOf(r))) else None
  }

  // ----- Timestamps -----

  function IsoBytes(t: Moment): seq<Byte> {
    Whole(t.micros) + (Maybe(t.offset) + [])
  }

  function Characters(b: seq<Byte>): string {
    seq(|b|, k requires 0 <= k < |b| => b[k] as char)
  }

  ghost function FromIso(s: string): Option<Moment> {
    if exists t :: Characters(IsoBytes(t)) == s then var t :| Characters(IsoBytes(t)) == s; Some(t) else None
  }

  lemma IsoApart(t: Moment, u: Moment)
    requires Characters(IsoBytes(t)) == Characters(IsoBytes(u))
    ensures t == u
  {
    var (a, b) := (IsoBytes(t), IsoBytes(u));
    assert |a| == |Characters(a)| == |Characters(b)| == |b|;
    forall k | 0 <= k < |a| ensures a[k] == b[k] {
      assert Characters(a)[k] == a[k] as char && Characters(b)[k] == b[k] as char;
    }
    assert a == b;
    WholeApart(t.micros, Maybe(t.offset) + [], u.micros, Maybe(u.offset) + []);
    MaybeApart(t.offset, [], u.offset, []);
  }

  /** The laws can be met. */
  lemma LawfulCodecExists(sign: seq<Byte> -> seq<Byte>, digest: Scope -> string) returns (codec: Codec)
    ensures Lawful(codec) && codec.sign == sign && codec.digest == digest
  {
    codec := Codec(sign, digest, (f: map<string, Json>) => Bytes(RecordOf(f)), (b: seq<Byte>) => Loads(b),
                   (t: Moment) => Characters(IsoBytes(t)), (s: string) => FromIso(s));
    forall state, scope, issued
      ensures var f := Fields(codec, state, scope, issued); codec.loads(codec.dumps(f)) == Some(Object(f))
    {
      var f := Fields(codec, state, scope, issued);
      var r := RecordOf(f);
      assert FieldsOf(r) == f;
      var q :| Bytes(q) == Bytes(r) && Loads(Bytes(r)) == Some(Object(FieldsOf(q)));
      BytesApart(q, r);
    }
    forall t: Moment | t.offset.Some? ensures codec.fromIso(codec.iso(t)) == Some(t) {
      var u :| Characters(IsoBytes(u)) == Characters(IsoBytes(t)) && FromIso(Characters(IsoBytes(t))) == Some(u);
      IsoApart(u, t);
    }
  }
}
