/** First expired, first out: src/inventory/domain/fefo-allocator.ts. Dates are day numbers. */
module Fefo {
  import opened Common
  import opened StockJournal

  /** `lotId` is `None` for the untracked part of the product. */
  datatype Allocation = Allocation(lotId: Option<Id>, quantity: int)

  predicate Sellable(l: Lot, today: int) {
    l.quantity > 0 && today <= l.expiresOn
  }

  predicate Earlier(a: Lot, b: Lot) {
    a.expiresOn < b.expiresOn || (a.expiresOn == b.expiresOn && a.id < b.id)
  }

  function InsertByExpiry(l: Lot, sorted: seq<Lot>): (r: seq<Lot>)
    ensures |r| == |sorted| + 1
    ensures forall x :: x in r <==> x == l || x in sorted
  {
    if sorted == [] || Earlier(l, sorted[0]) then [l] + sorted
    else [sorted[0]] + InsertByExpiry(l, sorted[1..])
  }

  /** The lots a sale may draw from, in the order it draws. */
  function SellableLots(lots: seq<Lot>, today: int): (r: seq<Lot>)
    ensures forall x :: x in r <==> x in lots && Sellable(x, today)
  {
    if lots == [] then []
    else
      var rest := SellableLots(lots[..|lots| - 1], today);
      var l := lots[|lots| - 1];
      if Sellable(l, today) then InsertByExpiry(l, rest) else rest
  }

  ghost predicate ByExpiry(lots: seq<Lot>) {
    forall i, j :: 0 <= i < j < |lots| ==> Earlier(lots[i], lots[j])
  }

  lemma {:induction false} InsertKeepsOrder(l: Lot, sorted: seq<Lot>)
    requires ByExpiry(sorted) && forall x :: x in sorted ==> x.id != l.id
    ensures ByExpiry(InsertByExpiry(l, sorted))
  {
    if sorted != [] && !Earlier(l, sorted[0]) {
      InsertKeepsOrder(l, sorted[1..]);
      var rest := InsertByExpiry(l, sorted[1..]);
      assert sorted[0] in sorted;
      forall i | 0 <= i < |rest|
        ensures Earlier(sorted[0], rest[i])
      {
        assert rest[i] in rest;
      }
    }
  }

  lemma {:induction false} SellableLotsOrdered(lots: seq<Lot>, today: int)
    requires forall i, j :: 0 <= i < j < |lots| ==> lots[i].id != lots[j].id
    ensures ByExpiry(SellableLots(lots, today))
  {
    if lots != [] {
      SellableLotsOrdered(lots[..|lots| - 1], today);
      if Sellable(lots[|lots| - 1], today) {
        InsertKeepsOrder(lots[|lots| - 1], SellableLots(lots[..|lots| - 1], today));
      }
    }
  }

  function Takes(lots: seq<Lot>, remaining: int): seq<Allocation> {
    if lots == [] || remaining == 0 then []
    else
      var take := if lots[0].quantity < remaining then lots[0].quantity else remaining;
      [Allocation(Some(lots[0].id), take)] + Takes(lots[1..], remaining - take)
  }

  function Available(lots: seq<Lot>, today: int): int {
    Sum(LotQuantities(SellableLots(lots, today)))
  }

  function AllocateFefo(quantity: int, untracked: int, lots: seq<Lot>, today: int): Result<seq<Allocation>, StockError> {
    if quantity <= 0 then Err(InvalidQuantity)
    else
      var rest := quantity - Available(lots, today);
      var takes := Takes(SellableLots(lots, today), quantity);
      if rest <= 0 then Ok(takes)
      else if untracked < rest then Err(InsufficientStock)
      else Ok(takes + [Allocation(None, rest)])
  }

  function Taken(allocations: seq<Allocation>): (r: seq<int>)
    ensures |r| == |allocations| && forall i :: 0 <= i < |r| ==> r[i] == allocations[i].quantity
  {
    seq(|allocations|, i requires 0 <= i < |allocations| => allocations[i].quantity)
  }

  ghost predicate AllPositive(lots: seq<Lot>) {
    forall l :: l in lots ==> 0 < l.quantity
  }

  /** Lots are drawn front to back, each in full but possibly the last. */
  ghost predicate InOrder(t: seq<Allocation>, lots: seq<Lot>) {
    && |t| <= |lots|
    && (forall i :: 0 <= i < |t| ==> t[i].lotId == Some(lots[i].id) && 0 < t[i].quantity <= lots[i].quantity)
    && (forall i :: 0 <= i < |t| - 1 ==> t[i].quantity == lots[i].quantity)
  }

  lemma {:induction false} TakesInOrder(lots: seq<Lot>, remaining: nat)
    requires AllPositive(lots)
    ensures InOrder(Takes(lots, remaining), lots)
  {
    if lots != [] && remaining > 0 {
      assert lots[0] in lots;
      var take := if lots[0].quantity < remaining then lots[0].quantity else remaining;
      TakesInOrder(lots[1..], remaining - take);
      var t := Takes(lots, remaining);
      var rest := Takes(lots[1..], remaining - take);
      assert t == [Allocation(Some(lots[0].id), take)] + rest;
      assert forall i :: 0 < i < |t| ==> t[i] == rest[i - 1] && lots[i] == lots[1..][i - 1];
    }
  }

  lemma TakesFront(lots: seq<Lot>, remaining: nat)
    requires lots != [] && remaining > 0
    ensures var take := if lots[0].quantity < remaining then lots[0].quantity else remaining;
            Sum(Taken(Takes(lots, remaining))) == take + Sum(Taken(Takes(lots[1..], remaining - take)))
  {
    var take := if lots[0].quantity < remaining then lots[0].quantity else remaining;
    var t := Takes(lots, remaining);
    assert Taken(t)[1..] == Taken(Takes(lots[1..], remaining - take));
    SumFromFront(Taken(t));
  }

  lemma LotsFront(lots: seq<Lot>)
    requires lots != []
    ensures Sum(LotQuantities(lots)) == lots[0].quantity + Sum(LotQuantities(lots[1..]))
  {
    SumFromFront(LotQuantities(lots));
    assert LotQuantities(lots)[1..] == LotQuantities(lots[1..]);
  }

  lemma {:induction false} TakesSum(lots: seq<Lot>, remaining: nat)
    requires AllPositive(lots)
    ensures Sum(Taken(Takes(lots, remaining))) == if Sum(LotQuantities(lots)) < remaining then Sum(LotQuantities(lots)) else remaining
    ensures 0 <= Sum(LotQuantities(lots))
  {
    if lots != [] {
      assert lots[0] in lots;
      var take := if lots[0].quantity < remaining then lots[0].quantity else remaining;
      TakesSum(lots[1..], remaining - take);
      LotsFront(lots);
      if remaining > 0 {
        TakesFront(lots, remaining);
      }
    }
  }

  /** Asking for all there is, or more, drains every lot. */
  lemma {:induction false} TakesDrain(lots: seq<Lot>, remaining: nat)
    requires AllPositive(lots) && Sum(LotQuantities(lots)) <= remaining
    ensures forall l :: l in lots ==> Whole(l) in Takes(lots, remaining)
  {
    if lots != [] {
      assert lots[0] in lots;
      TakesSum(lots[1..], remaining);
      LotsFront(lots);
      assert remaining > 0 && lots[0].quantity <= remaining;
      var rest := Takes(lots[1..], remaining - lots[0].quantity);
      assert Takes(lots, remaining) == [Whole(lots[0])] + rest;
      TakesDrain(lots[1..], remaining - lots[0].quantity);
      forall l | l in lots
        ensures Whole(l) in Takes(lots, remaining)
      {
        if l != lots[0] {
          assert l in lots[1..] && Whole(l) in rest;
        }
      }
    }
  }

  /** The loop's state before lot `i`. */
  ghost predicate Drawn(sellable: seq<Lot>, quantity: nat, i: nat, allocations: seq<Allocation>, remaining: nat) {
    && i <= |sellable|
    && allocations + Takes(sellable[i..], remaining) == Takes(sellable, quantity)
    && remaining == var drawn := Sum(LotQuantities(sellable)[..i]); if drawn < quantity then quantity - drawn else 0
  }

  lemma DrawStep(sellable: seq<Lot>, quantity: nat, i: nat, allocations: seq<Allocation>, remaining: nat)
    requires Drawn(sellable, quantity, i, allocations, remaining) && i < |sellable| && remaining > 0
    requires AllPositive(sellable)
    ensures var take := if sellable[i].quantity < remaining then sellable[i].quantity else remaining;
            Drawn(sellable, quantity, i + 1, allocations + [Allocation(Some(sellable[i].id), take)], remaining - take)
  {
    assert sellable[i] in sellable;
    var take := if sellable[i].quantity < remaining then sellable[i].quantity else remaining;
    var drawn := [Allocation(Some(sellable[i].id), take)];
    assert sellable[i..][1..] == sellable[i + 1..] && sellable[i..][0] == sellable[i];
    assert Takes(sellable[i..], remaining) == drawn + Takes(sellable[i + 1..], remaining - take);
    assert allocations + (drawn + Takes(sellable[i + 1..], remaining - take)) ==
           (allocations + drawn) + Takes(sellable[i + 1..], remaining - take);
    SumPrefix(LotQuantities(sellable), i);
  }

  lemma NothingDrawn(sellable: seq<Lot>, quantity: nat)
    ensures Drawn(sellable, quantity, 0, [], quantity)
  {
    assert sellable[0..] == sellable && LotQuantities(sellable)[..0] == [];
  }

  method DrawLots(sellable: seq<Lot>, quantity: nat) returns (allocations: seq<Allocation>, remaining: nat)
    requires AllPositive(sellable) && 0 < quantity
    ensures allocations == Takes(sellable, quantity)
    ensures remaining == if Sum(LotQuantities(sellable)) < quantity then quantity - Sum(LotQuantities(sellable)) else 0
  {
    allocations, remaining := [], quantity;
    var i := 0;
    NothingDrawn(sellable, quantity);
    while i < |sellable| && remaining != 0
      invariant Drawn(sellable, quantity, i, allocations, remaining)
      decreases |sellable| - i
    {
      DrawStep(sellable, quantity, i, allocations, remaining);
      var take := if sellable[i].quantity < remaining then sellable[i].quantity else remaining;
      allocations := allocations + [Allocation(Some(sellable[i].id), take)];
      remaining := remaining - take;
      i := i + 1;
    }
    PrefixWithinAll(sellable, i);
    assert allocations + [] == allocations;
  }

  lemma PrefixWithinAll(lots: seq<Lot>, i: nat)
    requires AllPositive(lots) && i <= |lots|
    ensures Sum(LotQuantities(lots)[..i]) <= Sum(LotQuantities(lots))
    ensures i == |lots| ==> Sum(LotQuantities(lots)[..i]) == Sum(LotQuantities(lots))
  {
    var amounts := LotQuantities(lots);
    assert amounts == amounts[..i] + amounts[i..];
    SumAppend(amounts[..i], amounts[i..]);
    forall k | i <= k < |amounts|
      ensures 0 <= amounts[k]
    {
      assert lots[k] in lots;
    }
    SumNonNegative(amounts[i..]);
  }

  method Allocate(quantity: int, untracked: int, lots: seq<Lot>, today: int) returns (r: Result<seq<Allocation>, StockError>)
    ensures r == AllocateFefo(quantity, untracked, lots, today)
  {
    if quantity <= 0 {
      return Err(InvalidQuantity);
    }
    var allocations, remaining := DrawLots(SellableLots(lots, today), quantity);
    if remaining > 0 {
      if untracked < remaining {
        return Err(InsufficientStock);
      }
      allocations := allocations + [Allocation(None, remaining)];
    }
    return Ok(allocations);
  }

  function Members(allocations: seq<Allocation>): set<Allocation> {
    set a | a in allocations
  }

  ghost predicate Draws(allocations: set<Allocation>, lotId: Option<Id>) {
    exists a :: a in allocations && a.lotId == lotId
  }

  function Whole(l: Lot): Allocation {
    Allocation(Some(l.id), l.quantity)
  }

  ghost predicate DrawsSellable(allocations: set<Allocation>, lots: seq<Lot>, today: int) {
    forall a :: a in allocations && a.lotId.Some? ==>
                  exists l :: l in lots && Sellable(l, today) && Some(l.id) == a.lotId && 0 < a.quantity <= l.quantity
  }

  ghost predicate EarlierFirst(allocations: set<Allocation>, lots: seq<Lot>, today: int) {
    forall early, late | early in lots && late in lots && Sellable(early, today) && Earlier(early, late) ::
      Draws(allocations, Some(late.id)) ==> Whole(early) in allocations
  }

  ghost predicate LotsBeforeUntracked(allocations: set<Allocation>, lots: seq<Lot>, today: int) {
    Draws(allocations, None) ==> forall l :: l in lots && Sellable(l, today) ==> Whole(l) in allocations
  }

  /** A sale line is allocated exactly when unexpired lots and the untracked part cover it. */
  lemma AllocateSucceedsIff(quantity: int, untracked: nat, lots: seq<Lot>, today: int)
    ensures AllocateFefo(quantity, untracked, lots, today).Ok? <==>
            0 < quantity <= Available(lots, today) + untracked
  {
  }

  lemma TakesEarlierFirst(lots: seq<Lot>, today: int, quantity: nat)
    requires ValidLots(lots)
    ensures EarlierFirst(Members(Takes(SellableLots(lots, today), quantity)), lots, today)
  {
    var sorted := SellableLots(lots, today);
    var takes := Takes(sorted, quantity);
    TakesInOrder(sorted, quantity);
    SellableLotsOrdered(lots, today);
    forall early, late | early in lots && late in lots && Sellable(early, today) && Earlier(early, late)
                         && Draws(Members(takes), Some(late.id))
      ensures Whole(early) in Members(takes)
    {
      var i :| 0 <= i < |sorted| && sorted[i] == early;
      var j :| 0 <= j < |takes| && takes[j].lotId == Some(late.id);
      assert sorted[j] in sorted;
      LotIdsUnique(lots, sorted[j], late);
      assert !Earlier(sorted[j], sorted[i]);
      assert takes[i] == Whole(early);
    }
  }

  lemma TakesSellable(lots: seq<Lot>, today: int, quantity: nat)
    requires ValidLots(lots)
    ensures DrawsSellable(Members(Takes(SellableLots(lots, today), quantity)), lots, today)
  {
    var sorted := SellableLots(lots, today);
    var takes := Takes(sorted, quantity);
    TakesInOrder(sorted, quantity);
    forall a | a in takes && a.lotId.Some?
      ensures exists l :: l in lots && Sellable(l, today) && Some(l.id) == a.lotId && 0 < a.quantity <= l.quantity
    {
      var j :| 0 <= j < |takes| && takes[j] == a;
      assert sorted[j] in sorted;
    }
  }

  ghost predicate FirstExpiredFirstOut(allocations: set<Allocation>, lots: seq<Lot>, today: int) {
    && DrawsSellable(allocations, lots, today)
    && EarlierFirst(allocations, lots, today)
    && LotsBeforeUntracked(allocations, lots, today)
  }

  lemma WithUntracked(takes: set<Allocation>, rest: int, lots: seq<Lot>, today: int)
    requires DrawsSellable(takes, lots, today) && EarlierFirst(takes, lots, today)
    requires forall l :: l in lots && Sellable(l, today) ==> Whole(l) in takes
    ensures FirstExpiredFirstOut(takes + {Allocation(None, rest)}, lots, today)
  {
  }

  lemma OnlyLots(lots: seq<Lot>, remaining: nat)
    requires AllPositive(lots)
    ensures forall a :: a in Members(Takes(lots, remaining)) ==> a.lotId.Some?
  {
    TakesInOrder(lots, remaining);
  }

  lemma DrainsSellable(lots: seq<Lot>, today: int, quantity: nat)
    requires Available(lots, today) <= quantity
    ensures forall l :: l in lots && Sellable(l, today) ==> Whole(l) in Members(Takes(SellableLots(lots, today), quantity))
  {
    TakesDrain(SellableLots(lots, today), quantity);
  }

  lemma AppendUntracked(takes: seq<Allocation>, rest: int)
    ensures Sum(Taken(takes + [Allocation(None, rest)])) == Sum(Taken(takes)) + rest
    ensures Members(takes + [Allocation(None, rest)]) == Members(takes) + {Allocation(None, rest)}
  {
    assert Taken(takes + [Allocation(None, rest)]) == Taken(takes) + [rest];
    SumSnoc(Taken(takes), rest);
  }

  /** The allocation is exact, draws sellable lots only, and is strictly first expired, first out. */
  lemma AllocationIsFefo(quantity: int, untracked: int, lots: seq<Lot>, today: int)
    requires ValidLots(lots) && AllocateFefo(quantity, untracked, lots, today).Ok?
    ensures var allocations := AllocateFefo(quantity, untracked, lots, today).value;
            && Sum(Taken(allocations)) == quantity
            && FirstExpiredFirstOut(Members(allocations), lots, today)
            && forall a :: a in Members(allocations) && a.lotId.None? ==> 0 < a.quantity <= untracked
  {
    var takes := Takes(SellableLots(lots, today), quantity);
    var rest := quantity - Available(lots, today);
    TakesSum(SellableLots(lots, today), quantity);
    OnlyLots(SellableLots(lots, today), quantity);
    TakesEarlierFirst(lots, today, quantity);
    TakesSellable(lots, today, quantity);
    if rest > 0 {
      AppendUntracked(takes, rest);
      DrainsSellable(lots, today, quantity);
      WithUntracked(Members(takes), rest, lots, today);
    }
  }

  lemma EarlierApart(lots: seq<Lot>, a: Lot, b: Lot)
    requires ValidLots(lots) && a in lots && b in lots && Earlier(a, b)
    ensures a.id != b.id
  {
    if a.id == b.id {
      LotIdsUnique(lots, a, b);
    }
  }

  lemma LotIdsUnique(lots: seq<Lot>, a: Lot, b: Lot)
    requires ValidLots(lots) && a in lots && b in lots && a.id == b.id
    ensures a == b
  {
    var i :| 0 <= i < |lots| && lots[i] == a;
    var j :| 0 <= j < |lots| && lots[j] == b;
  }
}
