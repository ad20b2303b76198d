/** Unpadded base64url (section 5 of RFC 4648) as the feed cursor writes it, and the lenient decoder it is
    read back with. */
module Base64Url {
  import opened Journal
  import opened Strings

  type Byte = x: int | 0 <= x < 256

  // ----- Encoding -----

  function Symbol(v: int): char
    requires 0 <= v < 64
  {
    if v < 26 then ('A' as int + v) as char
    else if v < 52 then ('a' as int + v - 26) as char
    else if v < 62 then ('0' as int + v - 52) as char
    else if v == 62 then '+'
    else '/'
  }

  function ToUrl(c: char): char {
    if c == '+' then '-' else if c == '/' then '_' else c
  }

  function FromUrl(c: char): char {
    if c == '-' then '+' else if c == '_' then '/' else c
  }

  function Translate(s: string, f: char -> char): string {
    seq(|s|, k requires 0 <= k < |s| => f(s[k]))
  }

  /** Padded base64 with the standard alphabet. */
  function Padded(b: seq<Byte>): string {
    if |b| == 0 then ""
    else if |b| == 1 then [Symbol(b[0] / 4), Symbol(b[0] % 4 * 16), '=', '=']
    else if |b| == 2 then [Symbol(b[0] / 4), Symbol(b[0] % 4 * 16 + b[1] / 16), Symbol(b[1] % 16 * 4), '=']
    else [Symbol(b[0] / 4), Symbol(b[0] % 4 * 16 + b[1] / 16), Symbol(b[1] % 16 * 4 + b[2] / 64), Symbol(b[2] % 64)]
         + Padded(b[3..])
  }

  /** _encode_base64 */
  function Encode(b: seq<Byte>): string {
    StripRight(Translate(Padded(b), ToUrl), '=')
  }

  // ----- Decoding -----

  /** The value of a symbol, or -1 outside the alphabet. */
  function Value(c: char): int {
    if 'A' <= c <= 'Z' then c as int - 'A' as int
    else if 'a' <= c <= 'z' then c as int - 'a' as int + 26
    else if '0' <= c <= '9' then c as int - '0' as int + 52
    else if c == '+' then 62
    else if c == '/' then 63
    else -1
  }

  /** Where the decoder stands: symbols seen in the current group, bits not yet written, '=' seen in a row. */
  datatype Cursor = Cursor(quad: int, left: int, pads: int)

  /** One symbol of value v: the byte it completes, if any, and the new position. */
  function Absorb(at: Cursor, v: int): (seq<Byte>, Cursor) {
    if at.quad == 0 then ([], Cursor(1, v, 0))
    else if at.quad == 1 then ([(at.left * 4 + v / 16) % 256], Cursor(2, v % 16, 0))
    else if at.quad == 2 then ([(at.left * 16 + v / 4) % 256], Cursor(3, v % 4, 0))
    else ([(at.left * 64 + v) % 256], Cursor(0, 0, 0))
  }

  /** Non-strict decoding: foreign characters are skipped, enough '=' after a partial group end the data,
      a group left open is an error. */
  function Scan(s: string, at: Cursor): Option<seq<Byte>> {
    if |s| == 0 then if at.quad == 0 then Some([]) else None
    else if s[0] == '=' then
      if at.quad >= 2 && at.quad + at.pads + 1 >= 4 then Some([])
      else Scan(s[1..], if at.quad >= 2 then at.(pads := at.pads + 1) else at)
    else if Value(s[0]) < 0 then Scan(s[1..], at)
    else
      var (byte, next) := Absorb(at, Value(s[0]));
      Prepend(byte, Scan(s[1..], next))
  }

  function Prepend(bytes: seq<Byte>, rest: Option<seq<Byte>>): Option<seq<Byte>> {
    if rest.None? then None else Some(bytes + rest.value)
  }

  predicate Ascii(s: string) {
    forall k :: 0 <= k < |s| ==> s[k] as int < 128
  }

  function Padding(n: nat): string {
    seq((4 - n % 4) % 4, _ => '=')
  }

  /** _decode_base64 */
  function Decode(s: string): Option<seq<Byte>> {
    if !Ascii(s) then None else Scan(Translate(s + Padding(|s|), FromUrl), Cursor(0, 0, 0))
  }

  // ----- The round trip -----

  predicate UrlSymbol(c: char) {
    'A' <= c <= 'Z' || 'a' <= c <= 'z' || '0' <= c <= '9' || c == '-' || c == '_'
  }

  lemma SymbolValue(v: int)
    requires 0 <= v < 64
    ensures Value(Symbol(v)) == v && Symbol(v) != '=' && FromUrl(ToUrl(Symbol(v))) == Symbol(v) && UrlSymbol(ToUrl(Symbol(v)))
  {
  }

  function PadsOf(b: seq<Byte>): int {
    if |b| % 3 == 0 then 0 else 3 - |b| % 3
  }

  lemma PadsOfRest(b: seq<Byte>)
    requires |b| >= 3
    ensures PadsOf(b[3..]) == PadsOf(b)
  {
    assert (|b| - 3) % 3 == |b| % 3;
  }

  lemma {:induction false} PaddedLength(b: seq<Byte>)
    ensures |Padded(b)| % 4 == 0 && PadsOf(b) <= |Padded(b)|
  {
    if |b| >= 3 {
      PaddedLength(b[3..]);
      PadsOfRest(b);
      assert |Padded(b)| == 4 + |Padded(b[3..])|;
      WholeGroups(|Padded(b[3..])|);
    }
  }

  lemma WholeGroups(n: nat)
    requires n % 4 == 0
    ensures (4 + n) % 4 == 0
  {
  }

  lemma {:induction false} StripRightPads(s: string, n: nat)
    requires n <= |s| && forall k :: |s| - n <= k < |s| ==> s[k] == '='
    requires n < |s| ==> s[|s| - n - 1] != '='
    ensures StripRight(s, '=') == s[..|s| - n]
  {
    if n == 0 {
      assert s[..|s|] == s;
    } else {
      StripRightPads(s[..|s| - 1], n - 1);
      assert s[..|s| - 1][..|s| - n] == s[..|s| - n];
    }
  }

  /** Only the padding is not a symbol. */
  lemma {:induction false} PaddedSymbols(b: seq<Byte>, k: nat)
    requires k < |Padded(b)|
    ensures k < |Padded(b)| - PadsOf(b) ==> UrlSymbol(ToUrl(Padded(b)[k])) && FromUrl(ToUrl(Padded(b)[k])) == Padded(b)[k]
    ensures k >= |Padded(b)| - PadsOf(b) ==> Padded(b)[k] == '='
  {
    if |b| >= 3 {
      PadsOfRest(b);
      if k >= 4 {
        PaddedSymbols(b[3..], k - 4);
      } else {
        PaddedLength(b[3..]);
      }
    }
  }

  /** Encoding drops exactly the padding. */
  lemma EncodedPrefix(b: seq<Byte>)
    ensures PadsOf(b) <= |Padded(b)| && Encode(b) == Translate(Padded(b), ToUrl)[..|Padded(b)| - PadsOf(b)]
  {
    var t := Translate(Padded(b), ToUrl);
    PaddedLength(b);
    forall k | 0 <= k < |t| ensures k < |t| - PadsOf(b) ==> t[k] != '='
                            ensures k >= |t| - PadsOf(b) ==> t[k] == '='
    {
      PaddedSymbols(b, k);
    }
    StripRightPads(t, PadsOf(b));
  }

  /** Encoded text holds letters, digits, '-' and '_' only, so never a dot. */
  lemma EncodedSymbols(b: seq<Byte>)
    ensures forall k :: 0 <= k < |Encode(b)| ==> UrlSymbol(Encode(b)[k])
  {
    EncodedPrefix(b);
    forall k | 0 <= k < |Encode(b)| ensures UrlSymbol(Encode(b)[k]) {
      PaddedSymbols(b, k);
    }
  }

  /** Adding the padding back gives the padded text. */
  lemma PaddingRestored(b: seq<Byte>)
    ensures Translate(Encode(b) + Padding(|Encode(b)|), FromUrl) == Padded(b)
  {
    var p, n := Padded(b), PadsOf(b);
    EncodedPrefix(b);
    PaddedLength(b);
    PadCount(|p|, n);
    var full := Encode(b) + Padding(|Encode(b)|);
    assert |full| == |p|;
    forall k | 0 <= k < |p| ensures FromUrl(full[k]) == p[k] {
      PaddedSymbols(b, k);
    }
  }

  lemma PadCount(total: nat, n: nat)
    requires total % 4 == 0 && n <= 2 && n <= total
    ensures (4 - (total - n) % 4) % 4 == n
  {
  }

  lemma Absorbed(v: int, rest: string, at: Cursor)
    requires 0 <= v < 64
    ensures var (byte, next) := Absorb(at, v);
            Scan([Symbol(v)] + rest, at) == Prepend(byte, Scan(rest, next))
  {
    SymbolValue(v);
    assert ([Symbol(v)] + rest)[1..] == rest;
  }

  lemma Pad(rest: string, at: Cursor)
    requires at.quad >= 2
    ensures Scan(['='] + rest, at) == if at.quad + at.pads >= 3 then Some([]) else Scan(rest, at.(pads := at.pads + 1))
  {
    assert (['='] + rest)[1..] == rest;
  }

  lemma HighBits(x: Byte, low: int)
    requires 0 <= low < 16
    ensures (x / 4 * 4 + (x % 4 * 16 + low) / 16) % 256 == x && (x % 4 * 16 + low) % 16 == low
  {
  }

  lemma FirstByte(x: Byte, low: int, rest: string)
    requires 0 <= low < 16
    ensures Scan([Symbol(x / 4)] + ([Symbol(x % 4 * 16 + low)] + rest), Cursor(0, 0, 0))
         == Prepend([x], Scan(rest, Cursor(2, low, 0)))
  {
    Absorbed(x / 4, [Symbol(x % 4 * 16 + low)] + rest, Cursor(0, 0, 0));
    Absorbed(x % 4 * 16 + low, rest, Cursor(1, x / 4, 0));
    HighBits(x, low);
    var tail := Scan(rest, Cursor(2, low, 0));
    assert tail.Some? ==> [] + ([x] + tail.value) == [x] + tail.value;
  }

  lemma SecondByte(y: Byte, low: int, rest: string)
    requires 0 <= low < 4
    ensures Scan([Symbol(y % 16 * 4 + low)] + rest, Cursor(2, y / 16, 0)) == Prepend([y], Scan(rest, Cursor(3, low, 0)))
  {
    Absorbed(y % 16 * 4 + low, rest, Cursor(2, y / 16, 0));
  }

  lemma ThirdByte(z: Byte, rest: string)
    ensures Scan([Symbol(z % 64)] + rest, Cursor(3, z / 64, 0)) == Prepend([z], Scan(rest, Cursor(0, 0, 0)))
  {
    Absorbed(z % 64, rest, Cursor(3, z / 64, 0));
  }

  lemma Joined(b: seq<Byte>, c: seq<Byte>, rest: Option<seq<Byte>>)
    ensures Prepend(b, Prepend(c, rest)) == Prepend(b + c, rest)
  {
    assert rest.Some? ==> b + (c + rest.value) == b + c + rest.value;
  }

  lemma FourSymbols(a: char, b: char, c: char, d: char, rest: string)
    ensures [a, b, c, d] + rest == [a] + ([b] + ([c] + ([d] + rest)))
  {
  }

  /** Three whole bytes. */
  lemma ScanGroup(x: Byte, y: Byte, z: Byte, rest: string)
    ensures Scan([Symbol(x / 4), Symbol(x % 4 * 16 + y / 16), Symbol(y % 16 * 4 + z / 64), Symbol(z % 64)] + rest, Cursor(0, 0, 0))
         == Prepend([x, y, z], Scan(rest, Cursor(0, 0, 0)))
  {
    var t2 := [Symbol(y % 16 * 4 + z / 64)] + ([Symbol(z % 64)] + rest);
    FirstByte(x, y / 16, t2);
    SecondByte(y, z / 64, [Symbol(z % 64)] + rest);
    ThirdByte(z, rest);
    Joined([y], [z], Scan(rest, Cursor(0, 0, 0)));
    Joined([x], [y] + [z], Scan(rest, Cursor(0, 0, 0)));
    assert [x] + ([y] + [z]) == [x, y, z];
    FourSymbols(Symbol(x / 4), Symbol(x % 4 * 16 + y / 16), Symbol(y % 16 * 4 + z / 64), Symbol(z % 64), rest);
  }

  lemma ScanTwo(x: Byte, y: Byte)
    ensures Scan([Symbol(x / 4), Symbol(x % 4 * 16 + y / 16), Symbol(y % 16 * 4), '='], Cursor(0, 0, 0)) == Some([x, y])
  {
    var t2 := [Symbol(y % 16 * 4 + 0)] + (['='] + "");
    FirstByte(x, y / 16, t2);
    SecondByte(y, 0, ['='] + "");
    Pad("", Cursor(3, 0, 0));
    assert [x] + ([y] + []) == [x, y];
    assert [Symbol(x / 4), Symbol(x % 4 * 16 + y / 16), Symbol(y % 16 * 4), '=']
        == [Symbol(x / 4)] + ([Symbol(x % 4 * 16 + y / 16)] + t2);
  }

  lemma ScanOne(x: Byte)
    ensures Scan([Symbol(x / 4), Symbol(x % 4 * 16), '=', '='], Cursor(0, 0, 0)) == Some([x])
  {
    var t2 := ['='] + (['='] + "");
    FirstByte(x, 0, t2);
    Pad(['='] + "", Cursor(2, 0, 0));
    Pad("", Cursor(2, 0, 1));
    assert [x] + [] == [x];
    assert [Symbol(x / 4), Symbol(x % 4 * 16), '=', '='] == [Symbol(x / 4)] + ([Symbol(x % 4 * 16 + 0)] + t2);
  }

  lemma FirstThree(b: seq<Byte>)
    requires |b| >= 3
    ensures b == [b[0], b[1], b[2]] + b[3..]
  {
  }

  lemma {:induction false} ScanPadded(b: seq<Byte>)
    ensures Scan(Padded(b), Cursor(0, 0, 0)) == Some(b)
  {
    if |b| == 1 {
      ScanOne(b[0]);
      assert b == [b[0]];
    } else if |b| == 2 {
      ScanTwo(b[0], b[1]);
      assert b == [b[0], b[1]];
    } else if |b| >= 3 {
      ScanPadded(b[3..]);
      ScanGroup(b[0], b[1], b[2], Padded(b[3..]));
      FirstThree(b);
    }
  }

  /** Bytes of every length survive encoding without padding and decoding. */
  lemma RoundTrip(b: seq<Byte>)
    ensures Decode(Encode(b)) == Some(b)
  {
    EncodedSymbols(b);
    PaddingRestored(b);
    ScanPadded(b);
  }
}
