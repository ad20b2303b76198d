/** The canonical text of a decimal attribute value. */
module DecimalIdentity {
  import opened Strings

  /** A finite decimal.Decimal: sign, digits and exponent are kept as given, so 1.0 and 1.00 differ. */
  datatype Decimal = Decimal(negative: bool, coefficient: nat, exponent: int)

  // ----- Numbers -----

  function Ten(e: int): real
    decreases if e < 0 then -e else e
  {
    if e == 0 then 1.0 else if e > 0 then 10.0 * Ten(e - 1) else Ten(e + 1) / 10.0
  }

  function Signed(d: Decimal): int {
    if d.negative then 0 - d.coefficient else d.coefficient
  }

  function Scaled(n: int, e: int): real {
    n as real * Ten(e)
  }

  /** The number a decimal stands for. */
  function Value(d: Decimal): real {
    Scaled(Signed(d), d.exponent)
  }

  lemma TenStep(e: int)
    ensures Ten(e + 1) == 10.0 * Ten(e)
  {
  }

  lemma {:induction false} TenPositive(e: int)
    ensures Ten(e) > 0.0
    decreases if e < 0 then -e else e
  {
    if e != 0 {
      TenPositive(if e > 0 then e - 1 else e + 1);
    }
  }

  // ----- Text -----

  function Digit(n: nat): char
    requires n < 10
  {
    ('0' as int + n) as char
  }

  function Digits(n: nat): string {
    if n < 10 then [Digit(n)] else Digits(n / 10) + [Digit(n % 10)]
  }

  function Zeros(n: nat): string {
    seq(n, _ => '0')
  }

  function Sign(d: Decimal): string {
    if d.negative then "-" else ""
  }

  /** format(value, "f") without the sign */
  function Unsigned(d: Decimal): string {
    var digits := Digits(d.coefficient);
    var left := |digits| + d.exponent;
    if d.coefficient == 0 && d.exponent > 0 then "0"
    else if left <= 0 then "0." + (Zeros(-left) + digits)
    else if d.exponent >= 0 then digits + Zeros(d.exponent)
    else digits[..left] + ("." + digits[left..])
  }

  /** format(value, "f") */
  function Format(d: Decimal): string {
    Sign(d) + Unsigned(d)
  }

  /** What decimal_identity_text does with the formatted text. */
  function Trim(s: string): string {
    var stripped := if '.' in s then StripRight(StripRight(s, '0'), '.') else s;
    if stripped == "" || stripped == "-0" then "0" else stripped
  }

  /** decimal_identity_text */
  function Text(d: Decimal): string {
    Trim(Format(d))
  }

  // ----- Reading text back -----

  function NatOf(s: string): nat {
    if s == "" then 0 else NatOf(s[..|s| - 1]) * 10 + (if '0' <= s[|s| - 1] <= '9' then s[|s| - 1] as int - '0' as int else 0)
  }

  /** An optional minus, digits, and the digits behind an optional dot. */
  function Parse(s: string): Decimal {
    if s != "" && s[0] == '-' then ParseBody(true, s[1..]) else ParseBody(false, s)
  }

  function ParseBody(negative: bool, body: string): Decimal {
    var k := FirstDot(body);
    var fraction := if k < |body| then body[k + 1..] else "";
    Decimal(negative, NatOf(body[..k] + fraction), -|fraction|)
  }

  // ----- Normal form -----

  /** No trailing zero behind the dot, no positive exponent, one zero. */
  function Normal(d: Decimal): Decimal
    decreases if d.exponent < 0 then -d.exponent else d.exponent
  {
    if d.coefficient == 0 then Decimal(false, 0, 0)
    else if d.exponent > 0 then Normal(Decimal(d.negative, d.coefficient * 10, d.exponent - 1))
    else if d.exponent < 0 && d.coefficient % 10 == 0 then Normal(Decimal(d.negative, d.coefficient / 10, d.exponent + 1))
    else d
  }

  predicate IsNormal(d: Decimal) {
    && d.exponent <= 0
    && (d.exponent < 0 ==> d.coefficient % 10 != 0)
    && (d.coefficient == 0 ==> !d.negative)
  }

  /** Moving a zero between coefficient and exponent keeps the number. */
  lemma ShiftKeepsValue(negative: bool, c: nat, e: int)
    ensures Value(Decimal(negative, c * 10, e)) == Value(Decimal(negative, c, e + 1))
  {
    var (d, s) := (Decimal(negative, c * 10, e), Signed(Decimal(negative, c, e + 1)));
    TenStep(e);
    assert Signed(d) == 10 * s;
    assert Signed(d) as real == 10.0 * s as real;
    Regroup(s as real, Ten(e));
  }

  lemma Regroup(x: real, t: real)
    ensures (10.0 * x) * t == x * (10.0 * t)
  {
  }

  lemma {:induction false} NormalKeepsValue(d: Decimal)
    ensures IsNormal(Normal(d)) && Value(Normal(d)) == Value(d)
    decreases if d.exponent < 0 then -d.exponent else d.exponent
  {
    if d.coefficient != 0 {
      if d.exponent > 0 {
        NormalKeepsValue(Decimal(d.negative, d.coefficient * 10, d.exponent - 1));
        ShiftKeepsValue(d.negative, d.coefficient, d.exponent - 1);
      } else if d.exponent < 0 && d.coefficient % 10 == 0 {
        NormalKeepsValue(Decimal(d.negative, d.coefficient / 10, d.exponent + 1));
        ShiftKeepsValue(d.negative, d.coefficient / 10, d.exponent);
        assert d.coefficient / 10 * 10 == d.coefficient;
      }
    }
  }

  /** A multiple of Ten(e + k) as an integer multiple of Ten(e). */
  lemma {:induction false} Rescaled(c: int, e: int, k: nat) returns (m: int)
    ensures Scaled(c, e + k) == Scaled(m, e)
    ensures k > 0 ==> m % 10 == 0
    ensures k == 0 ==> m == c
  {
    if k == 0 {
      m := c;
    } else {
      var n := Rescaled(c, e, k - 1);
      TenStep(e + k - 1);
      m := 10 * n;
      assert m as real == 10.0 * n as real;
      Regroup(c as real, Ten(e + k - 1));
      Regroup(n as real, Ten(e));
    }
  }

  lemma CancelFactor(x: real, y: real, t: real)
    requires t > 0.0 && x * t == y * t
    ensures x == y
  {
  }

  lemma Cancel(m: int, n: int, e: int)
    requires Scaled(m, e) == Scaled(n, e)
    ensures m == n
  {
    TenPositive(e);
    CancelFactor(m as real, n as real, Ten(e));
  }

  lemma LastDigit(d: Decimal)
    requires IsNormal(d) && d.exponent < 0
    ensures Signed(d) % 10 != 0
  {
  }

  lemma EqualNormalsAligned(a: Decimal, b: Decimal)
    requires IsNormal(a) && IsNormal(b) && Value(a) == Value(b) && a.exponent <= b.exponent
    ensures a == b
  {
    var m := Rescaled(Signed(b), a.exponent, b.exponent - a.exponent);
    Cancel(Signed(a), m, a.exponent);
    assert a.exponent == b.exponent by {
      if a.exponent < 0 {
        LastDigit(a);
      }
    }
    SameSigned(a, b);
  }

  lemma SameSigned(a: Decimal, b: Decimal)
    requires IsNormal(a) && IsNormal(b) && Signed(a) == Signed(b) && a.exponent == b.exponent
    ensures a == b
  {
  }

  /** Numerically equal decimals have one normal form. */
  lemma SameValueSameNormal(a: Decimal, b: Decimal)
    ensures Value(a) == Value(b) <==> Normal(a) == Normal(b)
  {
    NormalKeepsValue(a);
    NormalKeepsValue(b);
    if Value(a) == Value(b) {
      if Normal(a).exponent <= Normal(b).exponent {
        EqualNormalsAligned(Normal(a), Normal(b));
      } else {
        EqualNormalsAligned(Normal(b), Normal(a));
      }
    }
  }

  // ----- Digits -----

  predicate AllDigits(s: string) {
    forall k :: 0 <= k < |s| ==> '0' <= s[k] <= '9'
  }

  lemma {:induction false} DigitsShape(n: nat)
    ensures AllDigits(Digits(n)) && |Digits(n)| > 0 && Digits(n)[|Digits(n)| - 1] == Digit(n % 10)
    ensures NatOf(Digits(n)) == n
  {
    if n >= 10 {
      DigitsShape(n / 10);
      assert Digits(n)[..|Digits(n)| - 1] == Digits(n / 10);
    } else {
      assert Digits(n)[..0] == "";
    }
  }

  lemma DigitsTimesTen(c: nat)
    requires c > 0
    ensures Digits(c * 10) == Digits(c) + "0"
  {
    assert c * 10 / 10 == c && c * 10 % 10 == 0;
  }

  lemma {:induction false} LeadingZeros(k: nat, s: string)
    ensures NatOf(Zeros(k) + s) == NatOf(s)
  {
    if s != "" {
      LeadingZeros(k, s[..|s| - 1]);
      assert (Zeros(k) + s)[..k + |s| - 1] == Zeros(k) + s[..|s| - 1];
    } else if k > 0 {
      LeadingZeros(k - 1, s);
      assert (Zeros(k) + s)[..k - 1] == Zeros(k - 1) + s;
    }
  }

  lemma {:induction false} StripZeros(s: string, n: nat)
    requires s == "" || s[|s| - 1] != '0'
    ensures StripRight(s + Zeros(n), '0') == s
  {
    if n == 0 {
      assert s + Zeros(n) == s;
    } else {
      StripZeros(s, n - 1);
      assert (s + Zeros(n))[..|s| + n - 1] == s + Zeros(n - 1);
    }
  }

  lemma StripOne(s: string, c: char)
    ensures StripRight(s + [c], c) == StripRight(s, c)
  {
    assert (s + [c])[..|s|] == s;
  }

  // ----- The text of the normal form -----

  /** Zeros behind the dot are trimmed together with it. */
  lemma TrimZeros(s: string, n: nat)
    requires s != "" && '.' !in s
    ensures Trim(s + ['.'] + Zeros(n)) == Trim(s)
  {
    StripZeros(s + ['.'], n);
    StripOne(s, '.');
    assert (s + ['.'] + Zeros(n))[|s|] == '.';
  }

  lemma ZeroFormat(d: Decimal)
    requires d.coefficient == 0 && d.exponent < 0
    ensures Format(d) == Sign(d) + "0" + ['.'] + Zeros(-d.exponent)
  {
    var z := Zeros(-d.exponent);
    assert Zeros(-1 - d.exponent) + "0" == z;
    assert Unsigned(d) == "0." + z;
    assert "0." == "0" + ['.'];
    Assoc(Sign(d), "0" + ['.'], z);
    Assoc(Sign(d), "0", ['.']);
  }

  lemma ZeroText(d: Decimal)
    requires d.coefficient == 0
    ensures Text(d) == "0"
  {
    if d.exponent < 0 {
      ZeroFormat(d);
      TrimZeros(Sign(d) + "0", -d.exponent);
    } else {
      assert Unsigned(d) == "0";
    }
  }

  /** A normal text is left alone by the trimming. */
  lemma TrimNormal(d: Decimal)
    requires IsNormal(d) && d.coefficient > 0
    ensures Trim(Format(d)) == Format(d)
  {
    DigitsShape(d.coefficient);
    var digits := Digits(d.coefficient);
    if d.exponent == 0 {
      assert Unsigned(d) == digits;
      assert digits != "0" by { assert NatOf("0") == NatOf("") * 10; }
      assert Format(d) != "-0" by {
        assert "-0"[1..] == "0";
        if d.negative {
          assert Format(d)[1..] == digits;
        } else {
          assert Format(d)[0] == digits[0];
        }
      }
    } else {
      DotInFraction(d);
      assert Format(d)[|Format(d)| - 1] == Digit(d.coefficient % 10);
    }
  }

  lemma DotInFraction(d: Decimal)
    requires d.exponent < 0 && d.coefficient > 0
    ensures '.' in Format(d) && |Unsigned(d)| > 0 && Unsigned(d)[|Unsigned(d)| - 1] == Digit(d.coefficient % 10)
  {
    DigitsShape(d.coefficient);
    var digits, u := Digits(d.coefficient), Unsigned(d);
    var left := |digits| + d.exponent;
    assert u[if left <= 0 then 1 else left] == '.';
    assert Format(d)[|Sign(d)| + if left <= 0 then 1 else left] == '.';
  }

  /** Writing a zero of the exponent into the digits keeps the text. */
  lemma ShiftInward(d: Decimal)
    requires d.exponent > 0 && d.coefficient > 0
    ensures Format(d) == Format(Decimal(d.negative, d.coefficient * 10, d.exponent - 1))
  {
    DigitsTimesTen(d.coefficient);
    assert Digits(d.coefficient) + Zeros(d.exponent) == Digits(d.coefficient * 10) + Zeros(d.exponent - 1);
  }

  /** A trailing zero behind the dot is trimmed. */
  lemma ShiftOutward(d: Decimal)
    requires d.exponent < 0 && d.coefficient > 0 && d.coefficient % 10 == 0
    ensures Trim(Format(d)) == Trim(Format(Decimal(d.negative, d.coefficient / 10, d.exponent + 1)))
  {
    var next := Decimal(d.negative, d.coefficient / 10, d.exponent + 1);
    DigitsTimesTen(next.coefficient);
    DigitsShape(next.coefficient);
    if d.exponent < -1 {
      TailZero(d, next);
      DotInFraction(next);
      TrimTail(d, next);
    } else {
      var digits := Digits(next.coefficient);
      TenthsText(d, digits);
      assert Unsigned(next) == digits;
      TrimZeros(Sign(d) + digits, 1);
    }
  }

  /** A zero behind a text that has its dot is trimmed away. */
  lemma TrimTail(d: Decimal, next: Decimal)
    requires d.negative == next.negative && Unsigned(d) == Unsigned(next) + ['0'] && '.' in Format(next)
    ensures Trim(Format(d)) == Trim(Format(next))
  {
    Assoc(Sign(d), Unsigned(next), ['0']);
    StripOne(Format(next), '0');
    assert '.' in Format(next) + ['0'];
  }

  lemma TenthsText(d: Decimal, digits: string)
    requires d.exponent == -1 && Digits(d.coefficient) == digits + "0" && digits != ""
    ensures Format(d) == Sign(d) + digits + ['.'] + Zeros(1)
  {
    assert (digits + "0")[..|digits|] == digits && (digits + "0")[|digits|..] == ['0'];
    assert Zeros(1) == ['0'];
    Assoc(digits, ['.'], ['0']);
    Assoc(Sign(d), digits + ['.'], ['0']);
    Assoc(Sign(d), digits, ['.']);
  }

  lemma TailZero(d: Decimal, next: Decimal)
    requires d.exponent < -1 && next.exponent == d.exponent + 1
    requires Digits(d.coefficient) == Digits(next.coefficient) + "0"
    ensures Unsigned(d) == Unsigned(next) + ['0']
  {
    var a, b := Digits(d.coefficient), Digits(next.coefficient);
    var left := |a| + d.exponent;
    if left <= 0 {
      assert Zeros(-left) + a == (Zeros(-left) + b) + ['0'];
    } else {
      assert a[..left] == b[..left] && a[left..] == b[left..] + ['0'];
    }
  }

  /** The identity text is the plain text of the normal form. */
  lemma {:induction false} TextIsNormal(d: Decimal)
    requires d.coefficient > 0
    ensures Text(d) == Format(Normal(d))
    decreases if d.exponent < 0 then -d.exponent else d.exponent
  {
    if d.exponent > 0 {
      ShiftInward(d);
      TextIsNormal(Decimal(d.negative, d.coefficient * 10, d.exponent - 1));
    } else if d.exponent < 0 && d.coefficient % 10 == 0 {
      ShiftOutward(d);
      TextIsNormal(Decimal(d.negative, d.coefficient / 10, d.exponent + 1));
    } else {
      TrimNormal(d);
    }
  }

  lemma ParseWhole(d: Decimal)
    requires d.exponent == 0
    ensures ParseBody(d.negative, Unsigned(d)) == d && '0' <= Unsigned(d)[0] <= '9'
  {
    var digits := Digits(d.coefficient);
    DigitsShape(d.coefficient);
    assert Unsigned(d) == digits;
    assert FirstDot(digits) == |digits|;
    assert digits[..|digits|] + "" == digits;
  }

  lemma ParseSplit(negative: bool, head: string, tail: string)
    requires '.' !in head
    ensures ParseBody(negative, head + ("." + tail)) == Decimal(negative, NatOf(head + tail), -|tail|)
  {
    Assoc(head, ".", tail);
    SplitAtDot(head, tail);
  }

  lemma OneMoreZero(n: nat, s: string)
    ensures "0" + (Zeros(n) + s) == Zeros(n + 1) + s
  {
    assert "0" + Zeros(n) == Zeros(n + 1);
    Assoc("0", Zeros(n), s);
  }

  lemma ParseBelowOne(negative: bool, n: nat, digits: string)
    ensures ParseBody(negative, "0." + (Zeros(n) + digits)) == Decimal(negative, NatOf(digits), 0 - n - |digits|)
  {
    var tail := Zeros(n) + digits;
    Assoc("0", ".", tail);
    assert "0" + "." == "0.";
    ParseSplit(negative, "0", tail);
    OneMoreZero(n, digits);
    LeadingZeros(n + 1, digits);
  }

  lemma ParseSmall(d: Decimal)
    requires |Digits(d.coefficient)| + d.exponent <= 0
    ensures d.exponent < 0 && ParseBody(d.negative, Unsigned(d)) == d && Unsigned(d)[0] == '0'
  {
    DigitsShape(d.coefficient);
    ParseBelowOne(d.negative, -(|Digits(d.coefficient)| + d.exponent), Digits(d.coefficient));
  }

  lemma ParseMixed(d: Decimal)
    requires 0 < |Digits(d.coefficient)| + d.exponent < |Digits(d.coefficient)|
    ensures ParseBody(d.negative, Unsigned(d)) == d && '0' <= Unsigned(d)[0] <= '9'
  {
    var digits := Digits(d.coefficient);
    DigitsShape(d.coefficient);
    var left := |digits| + d.exponent;
    ParseSplit(d.negative, digits[..left], digits[left..]);
    assert digits[..left] + digits[left..] == digits;
  }

  lemma ParseUnsigned(d: Decimal)
    requires d.exponent <= 0
    ensures ParseBody(d.negative, Unsigned(d)) == d && Unsigned(d) != "" && Unsigned(d)[0] != '-'
  {
    DigitsShape(d.coefficient);
    if d.exponent == 0 {
      ParseWhole(d);
    } else if |Digits(d.coefficient)| + d.exponent <= 0 {
      ParseSmall(d);
    } else {
      ParseMixed(d);
    }
  }

  /** Reading a text gives the decimal that was formatted, unless it had a positive exponent. */
  lemma ParseFormat(d: Decimal)
    requires d.exponent <= 0
    ensures Parse(Format(d)) == d
  {
    ParseUnsigned(d);
    var u := Unsigned(d);
    if d.negative {
      assert ("-" + u)[1..] == u;
    } else {
      assert "" + u == u;
    }
  }

  lemma ParseText(d: Decimal)
    ensures Parse(Text(d)) == Normal(d)
  {
    if d.coefficient == 0 {
      ZeroText(d);
      assert Format(Decimal(false, 0, 0)) == "0";
      ParseFormat(Decimal(false, 0, 0));
    } else {
      TextIsNormal(d);
      NormalKeepsValue(d);
      ParseFormat(Normal(d));
    }
  }

  /** Reading the identity text gives the number back. */
  lemma TextKeepsValue(d: Decimal)
    ensures Value(Parse(Text(d))) == Value(d)
  {
    ParseText(d);
    NormalKeepsValue(d);
  }

  /** Two decimals of any sign, digits and exponent have the same identity text exactly when they are
      numerically equal. */
  lemma IdentityText(a: Decimal, b: Decimal)
    ensures Text(a) == Text(b) <==> Value(a) == Value(b)
  {
    ParseText(a);
    ParseText(b);
    SameValueSameNormal(a, b);
    if Value(a) == Value(b) {
      TextDetermined(a, b);
    }
  }

  lemma TextDetermined(a: Decimal, b: Decimal)
    requires Normal(a) == Normal(b)
    ensures Text(a) == Text(b)
  {
    if a.coefficient > 0 && b.coefficient > 0 {
      TextIsNormal(a);
      TextIsNormal(b);
    } else {
      NormalZero(a);
      NormalZero(b);
      ZeroText(a);
      ZeroText(b);
    }
  }

  lemma {:induction false} NormalZero(d: Decimal)
    ensures Normal(d).coefficient == 0 <==> d.coefficient == 0
    decreases if d.exponent < 0 then -d.exponent else d.exponent
  {
    if d.coefficient != 0 {
      if d.exponent > 0 {
        NormalZero(Decimal(d.negative, d.coefficient * 10, d.exponent - 1));
      } else if d.exponent < 0 && d.coefficient % 10 == 0 {
        NormalZero(Decimal(d.negative, d.coefficient / 10, d.exponent + 1));
      }
    }
  }

  // ----- The shape of the text -----

  /** An optional minus, a whole part without leading zeros, and behind a dot a fraction without trailing zeros. */
  predicate Canonical(sign: string, whole: string, fraction: string) {
    && (sign == "" || sign == "-") && AllDigits(whole) && AllDigits(fraction) && whole != ""
    && (whole[0] == '0' ==> whole == "0") && (fraction != "" ==> fraction[|fraction| - 1] != '0')
    && (sign == "-" ==> whole != "0" || fraction != "")
  }

  function Written(sign: string, whole: string, fraction: string): string {
    sign + (if fraction == "" then whole else whole + ("." + fraction))
  }

  lemma {:induction false} NoLeadingZero(n: nat)
    ensures |Digits(n)| > 0 && (Digits(n)[0] == '0' ==> n == 0)
  {
    if n >= 10 {
      NoLeadingZero(n / 10);
      assert Digits(n)[0] == Digits(n / 10)[0];
    }
  }

  lemma WholeParts(d: Decimal)
    requires IsNormal(d) && d.exponent == 0
    ensures Canonical(Sign(d), Digits(d.coefficient), "") && Format(d) == Written(Sign(d), Digits(d.coefficient), "")
  {
    var digits := Digits(d.coefficient);
    DigitsShape(d.coefficient);
    NoLeadingZero(d.coefficient);
    assert Unsigned(d) == digits;
    assert d.coefficient > 0 ==> digits[0] != '0';
    assert d.coefficient == 0 ==> digits == "0";
  }

  lemma SmallParts(d: Decimal)
    requires IsNormal(d) && d.exponent < 0 && |Digits(d.coefficient)| + d.exponent <= 0
    ensures var fraction := Zeros(0 - |Digits(d.coefficient)| - d.exponent) + Digits(d.coefficient);
            Canonical(Sign(d), "0", fraction) && Format(d) == Written(Sign(d), "0", fraction)
  {
    var digits := Digits(d.coefficient);
    DigitsShape(d.coefficient);
    var fraction := Zeros(0 - |digits| - d.exponent) + digits;
    assert fraction[|fraction| - 1] == digits[|digits| - 1];
    Assoc("0", ".", fraction);
    assert "0" + "." == "0.";
  }

  lemma SplitDigits(d: Decimal, left: nat)
    requires IsNormal(d) && 0 < left < |Digits(d.coefficient)| && d.exponent < 0
    ensures Canonical(Sign(d), Digits(d.coefficient)[..left], Digits(d.coefficient)[left..])
  {
    var digits := Digits(d.coefficient);
    DigitsShape(d.coefficient);
    NoLeadingZero(d.coefficient);
    AllDigitsSplit(digits, left);
    assert digits[..left][0] == digits[0] && digits[left..][|digits| - left - 1] == digits[|digits| - 1];
  }

  lemma AllDigitsSplit(s: string, n: nat)
    requires AllDigits(s) && n <= |s|
    ensures AllDigits(s[..n]) && AllDigits(s[n..])
  {
  }

  lemma MixedParts(d: Decimal)
    requires IsNormal(d) && 0 < |Digits(d.coefficient)| + d.exponent < |Digits(d.coefficient)|
    ensures var digits, left := Digits(d.coefficient), |Digits(d.coefficient)| + d.exponent;
            Canonical(Sign(d), digits[..left], digits[left..]) && Format(d) == Written(Sign(d), digits[..left], digits[left..])
  {
    SplitDigits(d, |Digits(d.coefficient)| + d.exponent);
  }

  /** The parts of a normal text. */
  lemma NormalParts(d: Decimal) returns (whole: string, fraction: string)
    requires IsNormal(d)
    ensures Canonical(Sign(d), whole, fraction) && Format(d) == Written(Sign(d), whole, fraction)
  {
    var digits := Digits(d.coefficient);
    var left := |digits| + d.exponent;
    if d.exponent == 0 {
      WholeParts(d);
      whole, fraction := digits, "";
    } else if left <= 0 {
      SmallParts(d);
      whole, fraction := "0", Zeros(0 - |digits| - d.exponent) + digits;
    } else {
      MixedParts(d);
      whole, fraction := digits[..left], digits[left..];
    }
  }

  /** Every identity text is written canonically. */
  lemma TextIsCanonical(d: Decimal) returns (sign: string, whole: string, fraction: string)
    ensures Canonical(sign, whole, fraction) && Text(d) == Written(sign, whole, fraction)
  {
    NormalKeepsValue(d);
    sign := Sign(Normal(d));
    if d.coefficient == 0 {
      ZeroText(d);
      whole, fraction := "0", "";
    } else {
      TextIsNormal(d);
      whole, fraction := NormalParts(Normal(d));
    }
  }
}
