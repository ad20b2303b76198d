/** Conservation: stock over all locations plus custody over all users changes only by
    one-sided movements. */
module Conservation {
  import opened Journal
  import opened Reversals

  /** Transfers, two-sided corrections, custody issues and returns, and reversals of these. */
  predicate Conserving(journal: seq<Movement>, m: Movement) {
    match m.kind
    case Transfer => true
    case Correction => m.source.Some? && m.destination.Some?
    case Issue | Return => m.custody.Some?
    case Reversal =>
      m.original.Some? && Find(journal, m.original.value).Some?
      && var o := Find(journal, m.original.value).value;
         (o.kind.Transfer? || (o.kind.Correction? && o.source.Some? && o.destination.Some?)
          || ((o.kind.Issue? || o.kind.Return?) && o.custody.Some?))
    case Receipt | WriteOff => false
  }

  /** A one-sided movement brings quantity in or takes it out. */
  predicate OneSided(m: Movement) {
    m.source.Some? != m.destination.Some? && m.custody.None?
  }

  function Signed(m: Movement, item: Id): int {
    if m.destination.Some? then Quantity(m, item) else -Quantity(m, item)
  }

  /** The signed sum of the one-sided movements among the journal. */
  function OneSidedTotal(journal: seq<Movement>, item: Id): int {
    if |journal| == 0 then 0
    else
      var m := journal[|journal| - 1];
      OneSidedTotal(journal[..|journal| - 1], item) + if Conserving(journal, m) then 0 else Signed(m, item)
  }

  function Total(keys: seq<Id>, balance: Id -> int): int {
    if |keys| == 0 then 0 else Total(keys[..|keys| - 1], balance) + balance(keys[|keys| - 1])
  }

  predicate Distinct(keys: seq<Id>) {
    forall i, k :: 0 <= i < k < |keys| ==> keys[i] != keys[k]
  }

  /** Enumerations of the locations and users tables that reach every position of the journal. */
  predicate Covers(journal: seq<Movement>, locations: seq<Id>, users: seq<Id>) {
    && Distinct(locations) && Distinct(users)
    && forall m :: m in journal ==>
         && (m.source.Some? ==> m.source.value in locations)
         && (m.destination.Some? ==> m.destination.value in locations)
         && (m.custody.Some? ==> m.custody.value in users)
  }

  lemma {:induction false} TotalAdds(keys: seq<Id>, f: Id -> int, g: Id -> int, h: Id -> int)
    requires forall k :: k in keys ==> f(k) == g(k) + h(k)
    ensures Total(keys, f) == Total(keys, g) + Total(keys, h)
  {
    if |keys| != 0 {
      var last := keys[|keys| - 1];
      assert last in keys && f(last) == g(last) + h(last);
      TotalAdds(keys[..|keys| - 1], f, g, h);
    }
  }

  /** A quantity booked at one key counts once in the total. */
  lemma {:induction false} TotalSpike(keys: seq<Id>, at: Option<Id>, amount: int, f: Id -> int)
    requires Distinct(keys)
    requires forall k :: k in keys ==> f(k) == if at == Some(k) then amount else 0
    ensures Total(keys, f) == if at.Some? && at.value in keys then amount else 0
  {
    if |keys| != 0 {
      var front := keys[..|keys| - 1];
      TotalSpike(front, at, amount, f);
      assert keys == front + [keys[|keys| - 1]];
      assert keys[|keys| - 1] !in front;
    }
  }

  function Spike(at: Option<Id>, amount: int): Id -> int {
    (k: Id) => if at == Some(k) then amount else 0
  }

  function StockAcross(journal: seq<Movement>, item: Id): Id -> int {
    (location: Id) => StockSum(journal, item, location)
  }

  function CustodyAcross(journal: seq<Movement>, item: Id): Id -> int {
    (user: Id) => CustodySum(journal, item, user)
  }

  /** The step: one accepted movement changes the grand total only if it is one-sided. */
  lemma MovementConserves(journal: seq<Movement>, m: Movement, item: Id)
    requires AcceptedJournal(journal) && Accepted(journal, m)
    ensures var sign := if m.custody.Some? then SqlCustodySign(m.kind, OriginalKind(journal + [m], m)) else 0;
            (if m.destination.Some? then Quantity(m, item) else 0) - (if m.source.Some? then Quantity(m, item) else 0)
            + sign * Quantity(m, item)
            == if Conserving(journal + [m], m) then 0 else Signed(m, item)
    ensures !Conserving(journal + [m], m) ==> OneSided(m)
  {
    if m.original.Some? {
      FindSound(journal, m.original.value);
      FindExtends(journal, [m], m.original.value);
      var o := Find(journal, m.original.value).value;
      var i :| 0 <= i < |journal| && journal[i] == o;
      assert Accepted(journal[..i], o);
      if m.kind.Reversal? {
        ReversalMirrors(journal, m);
      }
    }
  }

  lemma StockTotalStep(front: seq<Movement>, m: Movement, item: Id, locations: seq<Id>)
    requires Distinct(locations)
    requires (m.source.Some? ==> m.source.value in locations) && (m.destination.Some? ==> m.destination.value in locations)
    ensures Total(locations, StockAcross(front + [m], item))
         == Total(locations, StockAcross(front, item))
            + (if m.destination.Some? then Quantity(m, item) else 0)
            - (if m.source.Some? then Quantity(m, item) else 0)
  {
    var q := Quantity(m, item);
    var moved := (location: Id) => StockDelta(m, item, location);
    forall location | location in locations
      ensures StockAcross(front + [m], item)(location) == StockAcross(front, item)(location) + moved(location)
    {
      StockSnoc(front, m, item, location);
    }
    TotalAdds(locations, StockAcross(front + [m], item), StockAcross(front, item), moved);
    TotalAdds(locations, moved, Spike(m.destination, q), Spike(m.source, -q));
    TotalSpike(locations, m.destination, q, Spike(m.destination, q));
    TotalSpike(locations, m.source, -q, Spike(m.source, -q));
  }

  lemma CustodyTotalStep(front: seq<Movement>, m: Movement, item: Id, users: seq<Id>)
    requires WellLinked(front) && Distinct(users) && (m.custody.Some? ==> m.custody.value in users)
    ensures Total(users, CustodyAcross(front + [m], item))
         == Total(users, CustodyAcross(front, item))
            + if m.custody.Some? then SqlCustodySign(m.kind, OriginalKind(front + [m], m)) * Quantity(m, item) else 0
  {
    var amount := if m.custody.Some? then SqlCustodySign(m.kind, OriginalKind(front + [m], m)) * Quantity(m, item) else 0;
    forall user | user in users
      ensures CustodyAcross(front + [m], item)(user) == CustodyAcross(front, item)(user) + Spike(m.custody, amount)(user)
    {
      CustodySnoc(front, m, item, user);
    }
    TotalAdds(users, CustodyAcross(front + [m], item), CustodyAcross(front, item), Spike(m.custody, amount));
    TotalSpike(users, m.custody, amount, Spike(m.custody, amount));
  }

  /** In any accepted journal, stock summed over all locations plus custody summed over all users equals
      the signed sum of the one-sided movements. */
  lemma {:induction false} JournalConserves(journal: seq<Movement>, item: Id, locations: seq<Id>, users: seq<Id>)
    requires AcceptedJournal(journal) && Covers(journal, locations, users)
    ensures Total(locations, StockAcross(journal, item)) + Total(users, CustodyAcross(journal, item))
         == OneSidedTotal(journal, item)
  {
    if |journal| == 0 {
      TotalSpike(locations, None, 0, StockAcross(journal, item));
      TotalSpike(users, None, 0, CustodyAcross(journal, item));
    } else {
      var front, m := journal[..|journal| - 1], journal[|journal| - 1];
      assert journal == front + [m];
      assert m in journal;
      AcceptedPrefix(journal, |journal| - 1);
      AcceptedIsWellLinked(front);
      JournalConserves(front, item, locations, users);
      MovementConserves(front, m, item);
      StockTotalStep(front, m, item, locations);
      CustodyTotalStep(front, m, item, users);
    }
  }
}
