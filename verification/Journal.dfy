/** The warehouse journal: movement headers with their lines, the signed effect of one
    movement on a stock or custody balance, and sums of such effects over a journal. */
module Journal {

  /** A database uuid: only compared and ordered. */
  type Id = int

  datatype Option<+T> = None | Some(value: T)

  datatype MovementType = Receipt | Issue | Return | Transfer | WriteOff | Correction | Reversal

  datatype LineRow = LineRow(lineNo: int, item: Id, quantity: int)

  /** A row of `movements` together with its rows of `movement_lines`. */
  datatype Movement = Movement(
    id: Id, seqNo: nat, kind: MovementType, lineCount: int, actor: Id, custody: Option<Id>,
    source: Option<Id>, destination: Option<Id>, original: Option<Id>,
    requestId: string, fingerprint: string, lines: seq<LineRow>)

  const MAX_QUANTITY: int := 9007199254740991 // 2^53 - 1

  predicate InRange(quantity: int) {
    0 <= quantity <= MAX_QUANTITY
  }

  predicate Linked(kind: MovementType) {
    kind.Correction? || kind.Reversal?
  }

  // ----- Effects of one movement -----

  /** The quantity a movement's lines carry for one item. */
  function LineQuantity(lines: seq<LineRow>, item: Id): int {
    if |lines| == 0 then 0
    else LineQuantity(lines[..|lines| - 1], item)
         + if lines[|lines| - 1].item == item then lines[|lines| - 1].quantity else 0
  }

  function Quantity(m: Movement, item: Id): int {
    LineQuantity(m.lines, item)
  }

  predicate Touches(m: Movement, item: Id) {
    exists k :: 0 <= k < |m.lines| && m.lines[k].item == item
  }

  predicate DistinctItems(lines: seq<LineRow>) {
    forall i, k :: 0 <= i < k < |lines| ==> lines[i].item != lines[k].item
  }

  function StockDelta(m: Movement, item: Id, location: Id): int {
    (if m.destination == Some(location) then Quantity(m, item) else 0)
    - (if m.source == Some(location) then Quantity(m, item) else 0)
  }

  /** The CASE expression of the projection writer and of the drift query. */
  function SqlCustodySign(kind: MovementType, originalKind: Option<MovementType>): int {
    if kind == Issue then 1
    else if kind == Return then -1
    else if kind == Reversal && originalKind == Some(Issue) then -1
    else if kind == Reversal && originalKind == Some(Return) then 1
    else 0
  }

  /** The first journal row with the given id: LEFT JOIN movements original. */
  function Find(journal: seq<Movement>, id: Id): Option<Movement> {
    if |journal| == 0 then None
    else if journal[0].id == id then Some(journal[0])
    else Find(journal[1..], id)
  }

  function OriginalKind(journal: seq<Movement>, m: Movement): Option<MovementType> {
    if m.original.None? then None
    else match Find(journal, m.original.value)
      case None => None
      case Some(o) => Some(o.kind)
  }

  function CustodyDelta(journal: seq<Movement>, m: Movement, item: Id, user: Id): int {
    if m.custody == Some(user) then SqlCustodySign(m.kind, OriginalKind(journal, m)) * Quantity(m, item) else 0
  }

  // ----- Sums over a journal -----

  function Sum(journal: seq<Movement>, effect: Movement -> int): int {
    if |journal| == 0 then 0
    else Sum(journal[..|journal| - 1], effect) + effect(journal[|journal| - 1])
  }

  function StockEffect(item: Id, location: Id): Movement -> int {
    m => StockDelta(m, item, location)
  }

  function CustodyEffect(journal: seq<Movement>, item: Id, user: Id): Movement -> int {
    m => CustodyDelta(journal, m, item, user)
  }

  function StockSum(journal: seq<Movement>, item: Id, location: Id): int {
    Sum(journal, StockEffect(item, location))
  }

  function CustodySum(journal: seq<Movement>, item: Id, user: Id): int {
    Sum(journal, CustodyEffect(journal, item, user))
  }

  lemma SumSnoc(journal: seq<Movement>, m: Movement, effect: Movement -> int)
    ensures Sum(journal + [m], effect) == Sum(journal, effect) + effect(m)
  {
    assert (journal + [m])[..|journal|] == journal;
  }

  lemma {:induction false} SumConcat(a: seq<Movement>, b: seq<Movement>, effect: Movement -> int)
    ensures Sum(a + b, effect) == Sum(a, effect) + Sum(b, effect)
  {
    if |b| == 0 {
      assert a + b == a;
    } else {
      SumConcat(a, b[..|b| - 1], effect);
      assert (a + b)[..|a + b| - 1] == a + b[..|b| - 1];
    }
  }

  lemma {:induction false} SumCongruent(journal: seq<Movement>, f: Movement -> int, g: Movement -> int)
    requires forall k :: 0 <= k < |journal| ==> f(journal[k]) == g(journal[k])
    ensures Sum(journal, f) == Sum(journal, g)
  {
    if |journal| != 0 {
      SumCongruent(journal[..|journal| - 1], f, g);
    }
  }

  function RemoveAt(journal: seq<Movement>, k: nat): seq<Movement>
    requires k < |journal|
  {
    journal[..k] + journal[k + 1..]
  }

  lemma {:induction false} SumInserted(a: seq<Movement>, m: Movement, b: seq<Movement>, effect: Movement -> int)
    ensures Sum((a + [m]) + b, effect) == Sum(a + b, effect) + effect(m)
  {
    SumConcat(a + [m], b, effect);
    SumSnoc(a, m, effect);
    SumConcat(a, b, effect);
  }

  lemma {:induction false} SumRemoveAt(journal: seq<Movement>, k: nat, effect: Movement -> int)
    requires k < |journal|
    ensures Sum(journal, effect) == Sum(RemoveAt(journal, k), effect) + effect(journal[k])
  {
    assert journal == (journal[..k] + [journal[k]]) + journal[k + 1..];
    SumInserted(journal[..k], journal[k], journal[k + 1..], effect);
  }

  lemma RemoveAtBag(journal: seq<Movement>, k: nat)
    requires k < |journal|
    ensures multiset(RemoveAt(journal, k)) == multiset(journal) - multiset{journal[k]}
  {
    assert journal == (journal[..k] + [journal[k]]) + journal[k + 1..];
  }

  /** A sum does not depend on the order of the journal. */
  lemma {:induction false} SumPermuted(a: seq<Movement>, b: seq<Movement>, effect: Movement -> int)
    requires multiset(a) == multiset(b)
    ensures Sum(a, effect) == Sum(b, effect)
    decreases |a|
  {
    if |a| == 0 {
      assert |multiset(b)| == |b| && |multiset(a)| == 0;
      assert b == [];
    } else {
      var m := a[|a| - 1];
      assert m in multiset(b);
      var k :| 0 <= k < |b| && b[k] == m;
      RemoveAtBag(a, |a| - 1);
      RemoveAtBag(b, k);
      SumPermuted(RemoveAt(a, |a| - 1), RemoveAt(b, k), effect);
      SumRemoveAt(a, |a| - 1, effect);
      SumRemoveAt(b, k, effect);
    }
  }

  lemma {:induction false} UntouchedQuantity(lines: seq<LineRow>, item: Id)
    requires forall k :: 0 <= k < |lines| ==> lines[k].item != item
    ensures LineQuantity(lines, item) == 0
  {
    if |lines| != 0 {
      UntouchedQuantity(lines[..|lines| - 1], item);
    }
  }

  /** With one line per item, the quantity of an item is the quantity of its line. */
  lemma {:induction false} LineQuantityAt(lines: seq<LineRow>, k: nat)
    requires k < |lines| && DistinctItems(lines)
    ensures LineQuantity(lines, lines[k].item) == lines[k].quantity
  {
    var front := lines[..|lines| - 1];
    if k == |lines| - 1 {
      UntouchedQuantity(front, lines[k].item);
    } else {
      LineQuantityAt(front, k);
    }
  }

  lemma UntouchedEffects(journal: seq<Movement>, m: Movement, item: Id)
    requires !Touches(m, item)
    ensures Quantity(m, item) == 0
    ensures forall location :: StockDelta(m, item, location) == 0
    ensures forall user :: CustodyDelta(journal, m, item, user) == 0
  {
    UntouchedQuantity(m.lines, item);
  }

  // ----- Links between movements -----

  predicate UniqueIds(journal: seq<Movement>) {
    forall i, k :: 0 <= i < k < |journal| ==> journal[i].id != journal[k].id
  }

  lemma {:induction false} FindFirst(journal: seq<Movement>, k: nat)
    requires k < |journal| && UniqueIds(journal)
    ensures Find(journal, journal[k].id) == Some(journal[k])
  {
    if k != 0 {
      assert journal[0].id != journal[k].id;
      FindFirst(journal[1..], k - 1);
    }
  }

  lemma {:induction false} FindSound(journal: seq<Movement>, id: Id)
    ensures Find(journal, id).None? <==> forall k :: 0 <= k < |journal| ==> journal[k].id != id
    ensures Find(journal, id).Some? ==> Find(journal, id).value.id == id && Find(journal, id).value in journal
  {
    if |journal| != 0 {
      if journal[0].id != id {
        FindSound(journal[1..], id);
        if Find(journal[1..], id).None? {
          forall k | 0 <= k < |journal| ensures journal[k].id != id {
            if k != 0 {
              assert journal[1..][k - 1].id != id;
            }
          }
        }
      }
    }
  }

  lemma {:induction false} FindExtends(journal: seq<Movement>, rest: seq<Movement>, id: Id)
    requires Find(journal, id).Some?
    ensures Find(journal + rest, id) == Find(journal, id)
  {
    if journal[0].id != id {
      assert (journal + rest)[1..] == journal[1..] + rest;
      FindExtends(journal[1..], rest, id);
    }
  }

  /** Every link leads to an earlier movement that is not itself a reversal, only linked kinds carry a
      link, and no movement is reversed twice. */
  predicate WellLinked(journal: seq<Movement>) {
    && UniqueIds(journal)
    && (forall k :: 0 <= k < |journal| ==> Linked(journal[k].kind) == journal[k].original.Some?)
    && (forall k :: 0 <= k < |journal| && journal[k].original.Some? ==> TargetOk(journal[..k], journal[k]))
    && (forall i, k :: 0 <= i < k < |journal| && journal[i].kind.Reversal? && journal[k].kind.Reversal?
                       ==> journal[i].original != journal[k].original)
  }

  predicate TargetOk(earlier: seq<Movement>, m: Movement)
    requires m.original.Some?
  {
    var target := Find(earlier, m.original.value);
    target.Some? && !target.value.kind.Reversal?
  }

  /** Appending a movement changes no earlier link, hence no earlier custody effect. */
  lemma CustodySnoc(journal: seq<Movement>, m: Movement, item: Id, user: Id)
    requires WellLinked(journal)
    ensures CustodySum(journal + [m], item, user)
         == CustodySum(journal, item, user) + CustodyDelta(journal + [m], m, item, user)
  {
    var j := journal + [m];
    forall k | 0 <= k < |journal|
      ensures CustodyDelta(j, journal[k], item, user) == CustodyDelta(journal, journal[k], item, user)
    {
      if journal[k].original.Some? {
        FindExtends(journal[..k], journal[k..], journal[k].original.value);
        assert journal == journal[..k] + journal[k..];
        FindExtends(journal, [m], journal[k].original.value);
      }
    }
    SumSnoc(journal, m, CustodyEffect(j, item, user));
    SumCongruent(journal, CustodyEffect(j, item, user), CustodyEffect(journal, item, user));
  }

  lemma StockSnoc(journal: seq<Movement>, m: Movement, item: Id, location: Id)
    ensures StockSum(journal + [m], item, location) == StockSum(journal, item, location) + StockDelta(m, item, location)
  {
    SumSnoc(journal, m, StockEffect(item, location));
  }
}
