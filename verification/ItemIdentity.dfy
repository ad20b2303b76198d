/** Storing decimal attributes as NUMERIC(30,10) and the signature that identifies an item. */
module ItemIdentity {
  import opened Journal
  import opened DecimalIdentity

  const MAX_DECIMAL_SCALE := 10
  const MAX_DECIMAL_INTEGRAL_DIGITS := 20

  // ----- The storage check -----

  datatype StorageError = ScaleExceeded | PrecisionExceeded

  function Max(a: int, b: int): int {
    if a > b then a else b
  }

  /** _validate_decimal_storage */
  function CheckStorage(d: Decimal): Option<StorageError> {
    var fractionalDigits := Max(-d.exponent, 0);
    var integerDigits := if d.coefficient == 0 then 0 else Max(|Digits(d.coefficient)| + d.exponent, 0);
    if fractionalDigits > MAX_DECIMAL_SCALE then Some(ScaleExceeded)
    else if integerDigits > MAX_DECIMAL_INTEGRAL_DIGITS then Some(PrecisionExceeded)
    else None
  }

  function Pow(k: nat): nat {
    if k == 0 then 1 else 10 * Pow(k - 1)
  }

  /** A column NUMERIC(30,10): rounded to ten places, half away from zero; refused from 10^20 on. */
  function Store(d: Decimal): Option<Decimal> {
    var shift := d.exponent + MAX_DECIMAL_SCALE;
    var unscaled := if shift >= 0 then d.coefficient * Pow(shift) else RoundHalf(d.coefficient, Pow(-shift));
    if unscaled >= Pow(30) then None
    else Some(Decimal(d.negative && unscaled != 0, unscaled, -MAX_DECIMAL_SCALE))
  }

  function RoundHalf(c: nat, unit: nat): nat {
    if unit == 0 then c else (2 * c + unit) / (2 * unit)
  }

  // ----- Powers -----

  lemma {:induction false} PowAdd(a: nat, b: nat)
    ensures Pow(a + b) == Pow(a) * Pow(b)
  {
    if b != 0 {
      PowAdd(a, b - 1);
      assert a + b - 1 == a + (b - 1);
      assert Pow(a) * (10 * Pow(b - 1)) == 10 * (Pow(a) * Pow(b - 1));
    }
  }

  /** Counting digits is comparing with a power of ten. */
  lemma {:induction false} DigitCount(c: nat, k: nat)
    requires c > 0
    ensures |Digits(c)| <= k <==> c < Pow(k)
  {
    if k == 0 {
      DigitsShape(c);
    } else if c < 10 {
      PowPositive(k - 1);
    } else {
      DigitCount(c / 10, k - 1);
    }
  }

  lemma {:induction false} PowPositive(k: nat)
    ensures Pow(k) >= 1
  {
    if k != 0 {
      PowPositive(k - 1);
    }
  }

  /** Writing the zeros of the exponent out keeps the number. */
  lemma {:induction false} ScaledDown(n: int, e: int, k: nat)
    ensures Scaled(n, e + k) == Scaled(n * Pow(k), e)
    decreases k
  {
    if k != 0 {
      ScaledDown(10 * n, e, k - 1);
      ShiftScaled(n, e + k - 1);
      assert 10 * n * Pow(k - 1) == n * Pow(k);
      assert e + (k - 1) == e + k - 1;
    } else {
      assert n * Pow(0) == n;
    }
  }

  lemma ShiftScaled(n: int, e: int)
    ensures Scaled(10 * n, e) == Scaled(n, e + 1)
  {
    TenStep(e);
    assert (10 * n) as real == 10.0 * n as real;
    Regroup(n as real, Ten(e));
  }

  lemma ScaledOrder(m: int, n: int, e: int)
    ensures Scaled(m, e) < Scaled(n, e) <==> m < n
  {
    TenPositive(e);
    FactorOrder(m as real, n as real, Ten(e));
  }

  lemma FactorOrder(x: real, y: real, t: real)
    requires t > 0.0
    ensures x * t < y * t <==> x < y
  {
    assert (y - x) * t == y * t - x * t;
    if x < y {
      PositiveProduct(y - x, t);
    } else {
      NonnegativeProduct(x - y, t);
      assert (x - y) * t == x * t - y * t;
    }
  }

  lemma PositiveProduct(x: real, t: real)
    requires x > 0.0 && t > 0.0
    ensures x * t > 0.0
  {
  }

  lemma NonnegativeProduct(x: real, t: real)
    requires x >= 0.0 && t > 0.0
    ensures x * t >= 0.0
  {
  }

  // ----- What the check accepts -----

  function Magnitude(d: Decimal): real {
    Scaled(d.coefficient, d.exponent)
  }

  lemma SmallMagnitude(d: Decimal)
    requires d.coefficient > 0 && d.exponent <= 20
    ensures Magnitude(d) < Scaled(1, 20) <==> d.coefficient < Pow(20 - d.exponent)
  {
    ScaledDown(1, d.exponent, 20 - d.exponent);
    assert d.exponent + (20 - d.exponent) == 20;
    ScaledOrder(d.coefficient, Pow(20 - d.exponent), d.exponent);
  }

  lemma LargeMagnitude(d: Decimal)
    requires d.coefficient > 0 && d.exponent > 20
    ensures Magnitude(d) >= Scaled(1, 20)
  {
    ScaledDown(d.coefficient, 20, d.exponent - 20);
    assert 20 + (d.exponent - 20) == d.exponent;
    PowPositive(d.exponent - 20);
    assert d.coefficient * Pow(d.exponent - 20) >= 1;
    ScaledOrder(d.coefficient * Pow(d.exponent - 20), 1, 20);
  }

  /** The check accepts exactly the decimals written with at most ten places whose magnitude is below 10^20. */
  lemma AcceptedIff(d: Decimal)
    ensures CheckStorage(d).None? <==> d.exponent >= -10 && Magnitude(d) < Scaled(1, 20)
  {
    if d.coefficient == 0 {
      TenPositive(20);
      assert Scaled(1, 20) == Ten(20);
      assert Magnitude(d) == 0.0;
    } else if d.exponent > 20 {
      LargeMagnitude(d);
    } else {
      SmallMagnitude(d);
      DigitCount(d.coefficient, 20 - d.exponent);
    }
  }

  /** Too many places is said first, too large a number otherwise. */
  lemma RefusedIff(d: Decimal)
    ensures CheckStorage(d) == Some(ScaleExceeded) <==> d.exponent < -10
    ensures CheckStorage(d) == Some(PrecisionExceeded) <==> d.exponent >= -10 && Magnitude(d) >= Scaled(1, 20)
  {
    AcceptedIff(d);
  }

  /** The column rounds to the nearest unit, and up from one half. */
  lemma RoundedToNearest(c: nat, unit: nat)
    requires unit > 0
    ensures 2 * c - unit < 2 * (RoundHalf(c, unit) * unit) <= 2 * c + unit
  {
    var q, r := (2 * c + unit) / (2 * unit), (2 * c + unit) % (2 * unit);
    assert 2 * c + unit == q * (2 * unit) + r;
    assert q * (2 * unit) == 2 * (q * unit);
  }

  lemma FitsUnscaled(c: nat, e: int)
    requires -10 <= e <= 20 && c < Pow(20 - e)
    ensures c * Pow(e + 10) < Pow(30)
  {
    PowAdd(20 - e, e + 10);
    assert 20 - e + (e + 10) == 30;
    PowPositive(e + 10);
    ProductOrder(c, Pow(20 - e), Pow(e + 10));
  }

  lemma ProductOrder(a: int, b: int, t: int)
    requires a < b && t >= 1
    ensures a * t < b * t
  {
  }

  lemma StoreFits(d: Decimal)
    requires CheckStorage(d).None?
    ensures d.exponent >= -10 && Unscaled(d) < Pow(30)
  {
    if d.coefficient > 0 {
      WithinDigits(d);
      FitsUnscaled(d.coefficient, d.exponent);
    } else {
      PowPositive(30);
      ZeroTimes(Pow(d.exponent + 10));
    }
  }

  lemma WithinDigits(d: Decimal)
    requires CheckStorage(d).None? && d.coefficient > 0
    ensures -10 <= d.exponent <= 20 && d.coefficient < Pow(20 - d.exponent)
  {
    DigitsShape(d.coefficient);
    DigitCount(d.coefficient, 20 - d.exponent);
  }

  lemma ZeroTimes(n: int)
    ensures 0 * n == 0
  {
  }

  function Unscaled(d: Decimal): nat
    requires d.exponent >= -10
  {
    d.coefficient * Pow(d.exponent + 10)
  }

  lemma StoredAs(d: Decimal)
    requires d.exponent >= -10 && Unscaled(d) < Pow(30)
    ensures Store(d) == Some(Decimal(d.negative && Unscaled(d) != 0, Unscaled(d), -10))
  {
  }

  /** Every accepted value is exact in the column, and the identity text computed from the stored ten-place
      value is the one computed from the value given. */
  lemma StoredExactly(d: Decimal)
    requires CheckStorage(d).None?
    ensures Store(d).Some? && Value(Store(d).value) == Value(d) && Text(Store(d).value) == Text(d)
  {
    StoreFits(d);
    StoredAs(d);
    var s := Store(d).value;
    StoredValue(d, s);
    IdentityText(s, d);
  }

  lemma StoredValue(d: Decimal, s: Decimal)
    requires d.exponent >= -10 && s.exponent == -10 && s.coefficient == Unscaled(d)
    requires s.negative == (d.negative && s.coefficient != 0)
    ensures Value(s) == Value(d)
  {
    SignedProduct(d, s);
    ScaledDown(Signed(d), -10, d.exponent + 10);
    assert -10 + (d.exponent + 10) == d.exponent;
  }

  lemma SignedProduct(d: Decimal, s: Decimal)
    requires d.exponent >= -10 && s.coefficient == d.coefficient * Pow(d.exponent + 10)
    requires s.negative == (d.negative && s.coefficient != 0)
    ensures Signed(s) == Signed(d) * Pow(d.exponent + 10)
  {
    if d.negative {
      assert (0 - d.coefficient) * Pow(d.exponent + 10) == 0 - d.coefficient * Pow(d.exponent + 10);
    }
  }

  // ----- The signature -----

  datatype Attribute = Missing | TextValue(s: string) | DecimalValue(d: Decimal) | IntegerValue(n: int) | BooleanValue(b: bool)

  datatype Scalar = Quoted(s: string) | Whole(n: int) | Flag(b: bool)

  datatype Content = Content(category: string, manufacturer: string, model: string, attributes: map<string, Scalar>)

  /** `fold` is identity_text, `hash` the digest of the JSON text. */
  datatype Rules = Rules(fold: string -> string, hash: Content -> string)

  predicate Kept(v: Attribute) {
    v != Missing && v != TextValue("")
  }

  function Normalize(v: Attribute, fold: string -> string): Scalar {
    match v
    case Missing => Quoted("")
    case TextValue(s) => Quoted(fold(s))
    case DecimalValue(d) => Quoted(Text(d))
    case IntegerValue(n) => Whole(n)
    case BooleanValue(b) => Flag(b)
  }

  function OrEmpty(s: Option<string>): string {
    if s.None? then "" else s.value
  }

  datatype Item = Item(category: string, manufacturer: Option<string>, model: Option<string>, attributes: map<string, Attribute>)

  function ContentOf(item: Item, rules: Rules): Content {
    Content(item.category, rules.fold(OrEmpty(item.manufacturer)), rules.fold(OrEmpty(item.model)),
            map k | k in item.attributes && Kept(item.attributes[k]) :: Normalize(item.attributes[k], rules.fold))
  }

  /** item_signature */
  function Signature(item: Item, rules: Rules): string {
    rules.hash(ContentOf(item, rules))
  }

  function Present(item: Item): set<string> {
    set k | k in item.attributes && Counts(item.attributes[k])
  }

  /** Numbers and booleans count, false and zero among them; a text counts unless it is empty. */
  predicate Counts(v: Attribute) {
    v.DecimalValue? || v.IntegerValue? || v.BooleanValue? || (v.TextValue? && |v.s| > 0)
  }

  lemma KeptIff(v: Attribute)
    ensures Kept(v) <==> Counts(v)
  {
  }

  /** Equal as item identity sees it: texts up to folding, decimals as numbers. A decimal also equals a text
      that folds to its digits. */
  predicate SameAttribute(a: Attribute, b: Attribute, fold: string -> string) {
    match (a, b)
    case (TextValue(s), TextValue(t)) => fold(s) == fold(t)
    case (DecimalValue(d), DecimalValue(e)) => Value(d) == Value(e)
    case (TextValue(s), DecimalValue(d)) => fold(s) == Text(d)
    case (DecimalValue(d), TextValue(s)) => fold(s) == Text(d)
    case (IntegerValue(m), IntegerValue(n)) => m == n
    case (BooleanValue(p), BooleanValue(q)) => p == q
    case _ => false
  }

  ghost predicate SameItem(a: Item, b: Item, fold: string -> string) {
    && a.category == b.category
    && fold(OrEmpty(a.manufacturer)) == fold(OrEmpty(b.manufacturer))
    && fold(OrEmpty(a.model)) == fold(OrEmpty(b.model))
    && Present(a) == Present(b)
    && forall k :: k in Present(a) ==> SameAttribute(a.attributes[k], b.attributes[k], fold)
  }

  lemma NormalizeSame(a: Attribute, b: Attribute, fold: string -> string)
    requires Kept(a) && Kept(b)
    ensures Normalize(a, fold) == Normalize(b, fold) <==> SameAttribute(a, b, fold)
  {
    if a.DecimalValue? && b.DecimalValue? {
      IdentityText(a.d, b.d);
    }
  }

  lemma AttributesSame(a: Item, b: Item, rules: Rules)
    ensures ContentOf(a, rules).attributes == ContentOf(b, rules).attributes
       <==> Present(a) == Present(b) && forall k :: k in Present(a) ==> SameAttribute(a.attributes[k], b.attributes[k], rules.fold)
  {
    var (m, n) := (ContentOf(a, rules).attributes, ContentOf(b, rules).attributes);
    forall v ensures Kept(v) <==> Counts(v) {
      KeptIff(v);
    }
    assert m.Keys == Present(a) && n.Keys == Present(b);
    if Present(a) == Present(b) {
      forall k | k in Present(a) ensures m[k] == n[k] <==> SameAttribute(a.attributes[k], b.attributes[k], rules.fold) {
        assert k in Present(b);
        NormalizeSame(a.attributes[k], b.attributes[k], rules.fold);
      }
    }
  }

  /** Two items whose digests do not collide share a signature exactly when they are the same item: missing
      and blank attributes do not count and decimals count by their number, not by how they are written. */
  lemma SignatureIdentifies(a: Item, b: Item, rules: Rules)
    requires rules.hash(ContentOf(a, rules)) == rules.hash(ContentOf(b, rules)) ==> ContentOf(a, rules) == ContentOf(b, rules)
    ensures Signature(a, rules) == Signature(b, rules) <==> SameItem(a, b, rules.fold)
  {
    AttributesSame(a, b, rules);
  }

  /** Replacing the decimals of an item by what the column gives back keeps its signature. */
  lemma SignatureSurvivesStorage(item: Item, key: string, rules: Rules)
    requires key in item.attributes && item.attributes[key].DecimalValue? && CheckStorage(item.attributes[key].d).None?
    ensures var stored := Store(item.attributes[key].d);
            stored.Some? && Signature(item.(attributes := item.attributes[key := DecimalValue(stored.value)]), rules)
                         == Signature(item, rules)
  {
    var d := item.attributes[key].d;
    StoredExactly(d);
    SameContent(item, item.(attributes := item.attributes[key := DecimalValue(Store(d).value)]), rules);
  }

  lemma SameContent(a: Item, b: Item, rules: Rules)
    requires b == a.(attributes := b.attributes) && a.attributes.Keys == b.attributes.Keys
    requires forall k :: k in a.attributes ==>
               Kept(a.attributes[k]) == Kept(b.attributes[k])
               && Normalize(a.attributes[k], rules.fold) == Normalize(b.attributes[k], rules.fold)
    ensures Signature(a, rules) == Signature(b, rules)
  {
    assert ContentOf(a, rules).attributes == ContentOf(b, rules).attributes;
  }
}
