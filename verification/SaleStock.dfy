/** Charging a sale through the stock journal and reversing it: src/inventory/domain/stock-plan.ts,
src/inventory/domain/sale-reversal.ts and src/inventory/infrastructure/stock-journal.writer.ts.
*/
module SaleStock {
  import opened Common
  import opened StockJournal
  import opened Fefo

  datatype Item = Item(productId: Id, variantId: Option<Id>, quantity: Positive)

  // ----- Charging -----

  function BucketOf(productId: Id, lotId: Option<Id>): Bucket {
    if lotId.Some? then LotOf(productId, lotId.value) else Untracked(productId)
  }

  function AllocationChanges(productId: Id, allocations: seq<Allocation>): (r: seq<Change>)
    ensures |r| == |allocations|
    ensures forall i :: 0 <= i < |r| ==>
                          r[i] == Change(BucketOf(productId, allocations[i].lotId), -allocations[i].quantity, false)
  {
    seq(|allocations|, i requires 0 <= i < |allocations| =>
          Change(BucketOf(productId, allocations[i].lotId), -allocations[i].quantity, false))
  }

  /** Variant lines hit their variant; product lines go first expired, first out; untracked products write nothing. */
  function ChargeItem(s: Stock, item: Item, today: int): Result<Applied, StockError> {
    if item.variantId.Some? then
      ApplyChange(s, Change(VariantOf(item.productId, item.variantId.value), 0 - item.quantity, false))
    else if item.productId !in s then Err(BucketNotFound)
    else
      var p := s[item.productId];
      if !p.useStock then Ok(Applied(s, []))
      else
        match AllocateFefo(item.quantity, UntrackedQuantity(p), p.lots, today)
        case Err(e) => Err(e)
        case Ok(allocations) => ApplyChanges(s, AllocationChanges(item.productId, allocations))
  }

  function ChargeItems(s: Stock, items: seq<Item>, today: int): Result<Applied, StockError> {
    if items == [] then Ok(Applied(s, []))
    else
      match ChargeItems(s, items[..|items| - 1], today)
      case Err(e) => Err(e)
      case Ok(done) =>
        match ChargeItem(done.stock, items[|items| - 1], today)
        case Err(e) => Err(e)
        case Ok(last) => Ok(Applied(last.stock, done.movements + last.movements))
  }

  /** A bucket a movement can still be written on. */
  predicate Live(s: Stock, b: Bucket) {
    && Has(s, b)
    && (b.Untracked? ==> s[b.productId].useStock)
    && (b.LotOf? ==> !s[b.productId].hasVariants)
  }

  lemma LiveTransfers(s: Stock, t: Stock, b: Bucket)
    requires SameShapes(s, t)
    ensures Has(s, b) == Has(t, b) && Live(s, b) == Live(t, b)
  {
    if b.productId in s {
      assert SameShape(s[b.productId], t[b.productId]);
      if b.LotOf? {
        SameLotIds(s[b.productId].lots, t[b.productId].lots, b.lotId);
      } else if b.VariantOf? {
        SameVariantIds(s[b.productId].variants, t[b.productId].variants, b.variantId);
      }
    }
  }

  ghost predicate Outgoing(s: Stock, ms: seq<Movement>) {
    forall m :: m in ms ==> m.delta < 0 && Live(s, m.bucket)
  }

  lemma ApplyOutgoing(s: Stock, c: Change)
    requires ValidStock(s) && ApplyChange(s, c).Ok? && c.delta < 0
    ensures Outgoing(s, ApplyChange(s, c).value.movements)
  {
    ChangeSucceedsIff(s, c);
  }

  lemma OutgoingAppend(s: Stock, t: Stock, a: seq<Movement>, c: seq<Movement>)
    requires SameShapes(s, t) && Outgoing(s, a) && Outgoing(t, c)
    ensures Outgoing(s, a + c)
  {
    forall m | m in c
      ensures Live(s, m.bucket)
    {
      LiveTransfers(s, t, m.bucket);
    }
  }

  lemma {:induction false} ApplyAllOutgoing(s: Stock, cs: seq<Change>)
    requires ValidStock(s) && ApplyChanges(s, cs).Ok? && forall c :: c in cs ==> c.delta < 0
    ensures Outgoing(s, ApplyChanges(s, cs).value.movements)
  {
    if cs != [] {
      var n := |cs| - 1;
      ApplyAllOutgoing(s, cs[..n]);
      ApplyChangesPosted(s, cs[..n]);
      var done := ApplyChanges(s, cs[..n]).value;
      ApplyOutgoing(done.stock, cs[n]);
      OutgoingAppend(s, done.stock, done.movements, ApplyChange(done.stock, cs[n]).value.movements);
    }
  }

  lemma AllocationsPositive(quantity: int, untracked: int, lots: seq<Lot>, today: int)
    requires ValidLots(lots) && AllocateFefo(quantity, untracked, lots, today).Ok?
    ensures forall i :: 0 <= i < |AllocateFefo(quantity, untracked, lots, today).value| ==>
                          0 < AllocateFefo(quantity, untracked, lots, today).value[i].quantity
  {
    TakesInOrder(SellableLots(lots, today), quantity);
  }

  /** Charging a line moves exactly the buckets it records, all of them downwards. */
  lemma ChargeItemPosted(s: Stock, item: Item, today: int)
    requires ValidStock(s) && ChargeItem(s, item, today).Ok?
    ensures var a := ChargeItem(s, item, today).value;
            Posted(s, a.stock, a.movements) && Outgoing(s, a.movements)
  {
    if item.variantId.Some? {
      var c := Change(VariantOf(item.productId, item.variantId.value), 0 - item.quantity, false);
      ApplyChangePosted(s, c);
      ApplyOutgoing(s, c);
    } else if s[item.productId].useStock {
      var p := s[item.productId];
      var allocations := AllocateFefo(item.quantity, UntrackedQuantity(p), p.lots, today).value;
      AllocationsPositive(item.quantity, UntrackedQuantity(p), p.lots, today);
      ApplyChangesPosted(s, AllocationChanges(item.productId, allocations));
      ApplyAllOutgoing(s, AllocationChanges(item.productId, allocations));
    } else {
      ApplyChangesPosted(s, []);
    }
  }

  lemma {:induction false} ChargePosted(s: Stock, items: seq<Item>, today: int)
    requires ValidStock(s) && ChargeItems(s, items, today).Ok?
    ensures var a := ChargeItems(s, items, today).value;
            Posted(s, a.stock, a.movements) && Outgoing(s, a.movements)
  {
    if items == [] {
      ApplyChangesPosted(s, []);
    } else {
      var n := |items| - 1;
      ChargePosted(s, items[..n], today);
      var done := ChargeItems(s, items[..n], today).value;
      var last := ChargeItem(done.stock, items[n], today).value;
      ChargeItemPosted(done.stock, items[n], today);
      PostedTrans(s, done.stock, last.stock, done.movements, last.movements);
      OutgoingAppend(s, done.stock, done.movements, last.movements);
    }
  }

  // ----- When a charge succeeds -----

  ghost predicate DistinctBuckets(cs: seq<Change>) {
    forall i, j :: 0 <= i < j < |cs| ==> cs[i].bucket != cs[j].bucket
  }

  lemma {:induction false} Untouched(s: Stock, cs: seq<Change>, b: Bucket)
    requires ApplyChanges(s, cs).Ok? && forall c :: c in cs ==> c.bucket != b
    ensures SumOn(ApplyChanges(s, cs).value.movements, b) == 0
  {
    if cs != [] {
      var n := |cs| - 1;
      Untouched(s, cs[..n], b);
      var done := ApplyChanges(s, cs[..n]).value;
      var last := ApplyChange(done.stock, cs[n]).value;
      assert cs[n] in cs;
      SumOnAppend(done.movements, last.movements, b);
      if last.movements != [] {
        assert last.movements[..0] == [];
      }
    }
  }

  lemma {:induction false} IndependentChangesApply(s: Stock, cs: seq<Change>)
    requires ValidStock(s) && DistinctBuckets(cs) && forall c :: c in cs ==> ApplyChange(s, c).Ok?
    ensures ApplyChanges(s, cs).Ok?
  {
    if cs != [] {
      var n := |cs| - 1;
      IndependentChangesApply(s, cs[..n]);
      ApplyChangesPosted(s, cs[..n]);
      var done := ApplyChanges(s, cs[..n]).value;
      var c := cs[n];
      assert c in cs;
      forall d | d in cs[..n]
        ensures d.bucket != c.bucket
      {
        var k :| 0 <= k < n && cs[k] == d;
      }
      Untouched(s, cs[..n], c.bucket);
      StillApplies(s, done.stock, done.movements, c);
    }
  }

  lemma StillApplies(s: Stock, t: Stock, ms: seq<Movement>, c: Change)
    requires ValidStock(s) && Posted(s, t, ms) && SumOn(ms, c.bucket) == 0 && ApplyChange(s, c).Ok?
    ensures ApplyChange(t, c).Ok?
  {
    ChangeSucceedsIff(s, c);
    ChangeSucceedsIff(t, c);
    LiveTransfers(s, t, c.bucket);
    assert MovesAt(s, t, ms, c.bucket) && SameShape(s[c.bucket.productId], t[c.bucket.productId]);
  }

  lemma AllocationBucketsDistinct(id: Id, quantity: Positive, untracked: int, lots: seq<Lot>, today: int)
    requires ValidLots(lots) && AllocateFefo(quantity, untracked, lots, today).Ok?
    ensures DistinctBuckets(AllocationChanges(id, AllocateFefo(quantity, untracked, lots, today).value))
  {
    var sorted := SellableLots(lots, today);
    var takes := Takes(sorted, quantity);
    var allocations := AllocateFefo(quantity, untracked, lots, today).value;
    TakesInOrder(sorted, quantity);
    SellableLotsOrdered(lots, today);
    forall i, j | 0 <= i < j < |allocations|
      ensures allocations[i].lotId != allocations[j].lotId
    {
      if j < |takes| {
        assert sorted[i] in sorted && sorted[j] in sorted;
        EarlierApart(lots, sorted[i], sorted[j]);
      }
    }
  }

  lemma AllocationsApply(s: Stock, id: Id, quantity: Positive, today: int)
    requires ValidStock(s) && id in s && s[id].useStock
    requires AllocateFefo(quantity, UntrackedQuantity(s[id]), s[id].lots, today).Ok?
    ensures ApplyChanges(s, AllocationChanges(id, AllocateFefo(quantity, UntrackedQuantity(s[id]), s[id].lots, today).value)).Ok?
  {
    var p := s[id];
    var sorted := SellableLots(p.lots, today);
    var allocations := AllocateFefo(quantity, UntrackedQuantity(p), p.lots, today).value;
    var cs := AllocationChanges(id, allocations);
    SumNonNegative(LotQuantities(p.lots));
    TakesInOrder(sorted, quantity);
    var takes := Takes(sorted, quantity);
    if p.hasVariants {
      NothingSellable(p.lots, today);
      assert false;
    }
    forall i | 0 <= i < |cs|
      ensures ApplyChange(s, cs[i]).Ok?
    {
      ChangeSucceedsIff(s, cs[i]);
      if i < |takes| {
        assert sorted[i] in sorted;
        LotFound(p.lots, sorted[i]);
      }
    }
    AllocationBucketsDistinct(id, quantity, UntrackedQuantity(p), p.lots, today);
    IndependentChangesApply(s, cs);
  }

  lemma LotFound(lots: seq<Lot>, l: Lot)
    requires ValidLots(lots) && l in lots
    ensures FindLot(lots, l.id).Some? && lots[FindLot(lots, l.id).value] == l
  {
    var k :| 0 <= k < |lots| && lots[k] == l;
  }

  lemma {:induction false} NoneSellable(lots: seq<Lot>, today: int)
    requires forall l :: l in lots ==> !Sellable(l, today)
    ensures SellableLots(lots, today) == []
  {
    if lots != [] {
      NoneSellable(lots[..|lots| - 1], today);
      assert lots[|lots| - 1] in lots;
    }
  }

  lemma NothingSellable(lots: seq<Lot>, today: int)
    requires ValidLots(lots) && Sum(LotQuantities(lots)) <= 0
    ensures Available(lots, today) == 0
  {
    SumNonNegative(LotQuantities(lots));
    forall l | l in lots
      ensures !Sellable(l, today)
    {
      var k :| 0 <= k < |lots| && lots[k] == l;
      assert LotQuantities(lots)[k] <= Sum(LotQuantities(lots));
    }
    NoneSellable(lots, today);
  }

  /** Exactly when a line can be charged. */
  lemma ChargeItemSucceedsIff(s: Stock, item: Item, today: int)
    requires ValidStock(s)
    ensures ChargeItem(s, item, today).Ok? <==>
            if item.variantId.Some? then
              var b := VariantOf(item.productId, item.variantId.value);
              Has(s, b) && item.quantity <= Quantity(s, b)
            else
              && item.productId in s
              && var p := s[item.productId];
                 p.useStock ==> item.quantity <= Available(p.lots, today) + UntrackedQuantity(p)
  {
    if item.variantId.Some? {
      ChangeSucceedsIff(s, Change(VariantOf(item.productId, item.variantId.value), 0 - item.quantity, false));
    } else if item.productId in s && s[item.productId].useStock {
      var p := s[item.productId];
      AllocateSucceedsIff(item.quantity, UntrackedQuantity(p), p.lots, today);
      if item.quantity <= Available(p.lots, today) + UntrackedQuantity(p) {
        AllocationsApply(s, item.productId, item.quantity, today);
      }
    }
  }

  // ----- What a charge draws -----

  predicate ServesLine(b: Bucket, productId: Id, variantId: Option<Id>) {
    b.productId == productId && if b.VariantOf? then variantId == Some(b.variantId) else variantId.None?
  }

  function Drawn(ms: seq<Movement>, productId: Id, variantId: Option<Id>): int {
    if ms == [] then 0
    else
      var m := ms[|ms| - 1];
      Drawn(ms[..|ms| - 1], productId, variantId) + if ServesLine(m.bucket, productId, variantId) then -m.delta else 0
  }

  lemma {:induction false} DrawnAppend(a: seq<Movement>, c: seq<Movement>, productId: Id, variantId: Option<Id>)
    ensures Drawn(a + c, productId, variantId) == Drawn(a, productId, variantId) + Drawn(c, productId, variantId)
  {
    if c == [] {
      assert a + c == a;
    } else {
      DrawnAppend(a, c[..|c| - 1], productId, variantId);
      assert (a + c)[..|a + c| - 1] == a + c[..|c| - 1];
    }
  }

  predicate Tracked(s: Stock, item: Item) {
    item.variantId.Some? || (item.productId in s && s[item.productId].useStock)
  }

  /** The units of one product or variant that the lines ask for, untracked products aside. */
  function Requested(s: Stock, items: seq<Item>, productId: Id, variantId: Option<Id>): int {
    if items == [] then 0
    else
      var item := items[|items| - 1];
      Requested(s, items[..|items| - 1], productId, variantId) +
      if item.productId == productId && item.variantId == variantId && Tracked(s, item) then item.quantity else 0
  }

  /** The one row a change writes, if it is not dropped. */
  lemma OneMovement(s: Stock, c: Change, b: Bucket)
    requires ApplyChange(s, c).Ok?
    ensures var ms := ApplyChange(s, c).value.movements;
            && (ms == [] <==> c.bucket.Untracked? && !s[c.bucket.productId].useStock)
            && (ms != [] ==> |ms| == 1 && ms[0].bucket == c.bucket && ms[0].delta == c.delta)
            && SumOn(ms, b) == if ms != [] && b == c.bucket then c.delta else 0
  {
    var ms := ApplyChange(s, c).value.movements;
    if ms != [] {
      assert ms[..0] == [];
    }
  }

  lemma OneDraw(s: Stock, c: Change, productId: Id, variantId: Option<Id>)
    requires ApplyChange(s, c).Ok? && ServesLine(c.bucket, productId, variantId) && !c.skipIfNotStocked
    ensures Drawn(ApplyChange(s, c).value.movements, productId, variantId) == -c.delta
    ensures forall m :: m in ApplyChange(s, c).value.movements ==> ServesLine(m.bucket, productId, variantId)
  {
    assert ApplyChange(s, c).value.movements[..0] == [];
  }

  lemma {:induction false} ChangesDraw(s: Stock, cs: seq<Change>, productId: Id, variantId: Option<Id>)
    requires ApplyChanges(s, cs).Ok? && forall c :: c in cs ==> ServesLine(c.bucket, productId, variantId) && !c.skipIfNotStocked
    ensures Drawn(ApplyChanges(s, cs).value.movements, productId, variantId) == -Sum(Deltas(cs))
    ensures forall m :: m in ApplyChanges(s, cs).value.movements ==> ServesLine(m.bucket, productId, variantId)
  {
    if cs != [] {
      var n := |cs| - 1;
      ChangesDraw(s, cs[..n], productId, variantId);
      assert cs[n] in cs && Deltas(cs)[..n] == Deltas(cs[..n]);
      var done := ApplyChanges(s, cs[..n]).value;
      var last := ApplyChange(done.stock, cs[n]).value;
      DrawnAppend(done.movements, last.movements, productId, variantId);
      OneDraw(done.stock, cs[n], productId, variantId);
    }
  }

  function Deltas(cs: seq<Change>): (r: seq<int>)
    ensures |r| == |cs| && forall i :: 0 <= i < |r| ==> r[i] == cs[i].delta
  {
    seq(|cs|, i requires 0 <= i < |cs| => cs[i].delta)
  }

  lemma {:induction false} NegatedSum(a: seq<int>, b: seq<int>)
    requires |a| == |b| && forall i :: 0 <= i < |a| ==> a[i] == -b[i]
    ensures Sum(a) == -Sum(b)
  {
    if a != [] {
      NegatedSum(a[..|a| - 1], b[..|b| - 1]);
    }
  }

  lemma {:induction false} OtherLineDraws(ms: seq<Movement>, p: Id, v: Option<Id>, productId: Id, variantId: Option<Id>)
    requires forall m :: m in ms ==> ServesLine(m.bucket, p, v)
    requires p != productId || v != variantId
    ensures Drawn(ms, productId, variantId) == 0
  {
    if ms != [] {
      assert ms[|ms| - 1] in ms;
      OtherLineDraws(ms[..|ms| - 1], p, v, productId, variantId);
    }
  }

  lemma ChargeItemDraws(s: Stock, item: Item, today: int)
    requires ValidStock(s) && ChargeItem(s, item, today).Ok?
    ensures var ms := ChargeItem(s, item, today).value.movements;
            && Drawn(ms, item.productId, item.variantId) == (if Tracked(s, item) then item.quantity else 0)
            && forall m :: m in ms ==> ServesLine(m.bucket, item.productId, item.variantId)
  {
    var ms := ChargeItem(s, item, today).value.movements;
    if item.variantId.Some? {
      assert ms[..0] == [];
    } else if s[item.productId].useStock {
      var p := s[item.productId];
      var allocations := AllocateFefo(item.quantity, UntrackedQuantity(p), p.lots, today).value;
      var cs := AllocationChanges(item.productId, allocations);
      ChangesDraw(s, cs, item.productId, None);
      AllocationIsFefo(item.quantity, UntrackedQuantity(p), p.lots, today);
      NegatedSum(Deltas(cs), Taken(allocations));
    }
  }

  /** The journal rows of a sale draw, product by product and variant by variant, exactly the units on its lines. */
  lemma {:induction false} ChargeDrawsLines(s: Stock, items: seq<Item>, today: int, productId: Id, variantId: Option<Id>)
    requires ValidStock(s) && ChargeItems(s, items, today).Ok?
    ensures Drawn(ChargeItems(s, items, today).value.movements, productId, variantId) == Requested(s, items, productId, variantId)
  {
    if items != [] {
      var n := |items| - 1;
      var item := items[n];
      ChargeDrawsLines(s, items[..n], today, productId, variantId);
      ChargePosted(s, items[..n], today);
      var done := ChargeItems(s, items[..n], today).value;
      var last := ChargeItem(done.stock, item, today).value;
      ChargeItemDraws(done.stock, item, today);
      DrawnAppend(done.movements, last.movements, productId, variantId);
      if item.productId != productId || item.variantId != variantId {
        OtherLineDraws(last.movements, item.productId, item.variantId, productId, variantId);
      } else if productId in s {
        assert SameShape(s[productId], done.stock[productId]);
      }
    }
  }

  // ----- Reversing -----

  /** Where a consumed bucket is restored: a lot deleted since the sale goes to the untracked part. */
  function ReverseBucket(s: Stock, b: Bucket): Bucket {
    if b.VariantOf? || (b.LotOf? && Has(s, b)) then b else Untracked(b.productId)
  }

  function ReverseOne(initial: Stock, s: Stock, m: Movement): Result<Applied, StockError> {
    if m.delta >= 0 then Ok(Applied(s, []))
    else
      var b := ReverseBucket(initial, m.bucket);
      if !Has(s, b) then Ok(Applied(s, [])) else ApplyChange(s, Change(b, -m.delta, true))
  }

  function ReverseSale(s: Stock, consumed: seq<Movement>): Result<Applied, StockError> {
    if consumed == [] then Ok(Applied(s, []))
    else
      match ReverseSale(s, consumed[..|consumed| - 1])
      case Err(e) => Err(e)
      case Ok(done) =>
        match ReverseOne(s, done.stock, consumed[|consumed| - 1])
        case Err(e) => Err(e)
        case Ok(last) => Ok(Applied(last.stock, done.movements + last.movements))
  }

  /** What one consumed movement gives back to bucket `b`. */
  function GivesBack(s: Stock, m: Movement, b: Bucket): int {
    if m.delta < 0 && ReverseBucket(s, m.bucket) == b && Live(s, b) then -m.delta else 0
  }

  function GivenBack(s: Stock, consumed: seq<Movement>, b: Bucket): int {
    if consumed == [] then 0
    else GivenBack(s, consumed[..|consumed| - 1], b) + GivesBack(s, consumed[|consumed| - 1], b)
  }

  lemma ReverseOnePosted(initial: Stock, s: Stock, m: Movement)
    requires ValidStock(s) && ReverseOne(initial, s, m).Ok?
    ensures Posted(s, ReverseOne(initial, s, m).value.stock, ReverseOne(initial, s, m).value.movements)
  {
    var c := Change(ReverseBucket(initial, m.bucket), -m.delta, true);
    var r := ReverseOne(initial, s, m);
    if m.delta < 0 && Has(s, c.bucket) {
      assert r == ApplyChange(s, c);
      ApplyChangePosted(s, c);
    } else {
      assert r.value == ApplyChanges(s, []).value;
      ApplyChangesPosted(s, []);
    }
  }

  lemma ReverseOneGives(initial: Stock, s: Stock, m: Movement, b: Bucket)
    requires ValidStock(s) && SameShapes(initial, s) && ReverseOne(initial, s, m).Ok?
    ensures SumOn(ReverseOne(initial, s, m).value.movements, b) == GivesBack(initial, m, b)
  {
    var target := ReverseBucket(initial, m.bucket);
    LiveTransfers(initial, s, target);
    if m.delta < 0 && Has(s, target) {
      ReverseGives(s, target, -m.delta);
    }
  }

  lemma ReverseGives(s: Stock, target: Bucket, units: Positive)
    requires ValidStock(s) && ApplyChange(s, Change(target, units, true)).Ok?
    ensures forall b :: SumOn(ApplyChange(s, Change(target, units, true)).value.movements, b) ==
                        if b == target && Live(s, b) then units else 0
  {
    var c := Change(target, units, true);
    ChangeSucceedsIff(s, c);
    forall b
      ensures SumOn(ApplyChange(s, c).value.movements, b) == if b == target && Live(s, b) then units else 0
    {
      OneMovement(s, c, b);
    }
  }

  /** A reversal posts exactly what it gives back, bucket by bucket. */
  lemma {:induction false} ReversePosted(s: Stock, consumed: seq<Movement>)
    requires ValidStock(s) && ReverseSale(s, consumed).Ok?
    ensures var a := ReverseSale(s, consumed).value;
            Posted(s, a.stock, a.movements) && forall b :: SumOn(a.movements, b) == GivenBack(s, consumed, b)
  {
    if consumed == [] {
      ApplyChangesPosted(s, []);
    } else {
      var n := |consumed| - 1;
      ReversePosted(s, consumed[..n]);
      var done := ReverseSale(s, consumed[..n]).value;
      var last := ReverseOne(s, done.stock, consumed[n]).value;
      ReverseOnePosted(s, done.stock, consumed[n]);
      PostedTrans(s, done.stock, last.stock, done.movements, last.movements);
      forall b
        ensures SumOn(done.movements + last.movements, b) == GivenBack(s, consumed, b)
      {
        SumOnAppend(done.movements, last.movements, b);
        ReverseOneGives(s, done.stock, consumed[n], b);
      }
    }
  }

  /** A consumed lot that still exists on a product that has since been given variants. */
  predicate Stranded(s: Stock, m: Movement) {
    m.delta < 0 && m.bucket.LotOf? && Has(s, m.bucket) && s[m.bucket.productId].hasVariants
  }

  /** Stock never refuses a cancellation, except for one case: a lot the sale drew from is still on its product,
      and the product was given variants in between. */
  lemma {:induction false} ReverseSucceedsIff(s: Stock, consumed: seq<Movement>)
    requires ValidStock(s)
    ensures ReverseSale(s, consumed).Ok? <==> forall m :: m in consumed ==> !Stranded(s, m)
  {
    if consumed != [] {
      var n := |consumed| - 1;
      ReverseSucceedsIff(s, consumed[..n]);
      if ReverseSale(s, consumed[..n]).Ok? {
        ReversePosted(s, consumed[..n]);
        ReverseOneSucceedsIff(s, ReverseSale(s, consumed[..n]).value.stock, consumed[n]);
      }
      assert consumed == consumed[..n] + [consumed[n]];
    }
  }

  lemma ReverseOneSucceedsIff(initial: Stock, s: Stock, m: Movement)
    requires ValidStock(s) && SameShapes(initial, s)
    ensures ReverseOne(initial, s, m).Ok? <==> !Stranded(initial, m)
  {
    var target := ReverseBucket(initial, m.bucket);
    LiveTransfers(initial, s, target);
    LiveTransfers(initial, s, m.bucket);
    if m.delta < 0 && Has(s, target) {
      ChangeSucceedsIff(s, Change(target, -m.delta, true));
      BucketNonNegative(s, target);
      assert SameShape(initial[target.productId], s[target.productId]);
    }
  }

  lemma BucketNonNegative(s: Stock, b: Bucket)
    requires ValidStock(s)
    ensures 0 <= Quantity(s, b)
  {
  }

  lemma {:induction false} GivenBackIsDrawn(s: Stock, consumed: seq<Movement>, b: Bucket)
    requires Outgoing(s, consumed)
    ensures GivenBack(s, consumed, b) == -SumOn(consumed, b)
  {
    if consumed != [] {
      var n := |consumed| - 1;
      GivenBackIsDrawn(s, consumed[..n], b);
      assert consumed[n] in consumed;
    }
  }

  lemma OutgoingTransfers(s: Stock, t: Stock, ms: seq<Movement>)
    requires SameShapes(s, t) && Outgoing(s, ms)
    ensures Outgoing(t, ms)
  {
    forall m | m in ms
      ensures Live(t, m.bucket)
    {
      LiveTransfers(s, t, m.bucket);
    }
  }

  /** Cancelling after any other activity that kept the rows gives every bucket back exactly what this sale took from it. */
  lemma ReverseGivesBackExactly(s: Stock, t: Stock, items: seq<Item>, today: int, b: Bucket)
    requires ValidStock(s) && ChargeItems(s, items, today).Ok? && ValidStock(t) && SameShapes(s, t)
    ensures var consumed := ChargeItems(s, items, today).value.movements;
            && ReverseSale(t, consumed).Ok?
            && Quantity(ReverseSale(t, consumed).value.stock, b) == Quantity(t, b) - SumOn(consumed, b)
  {
    ChargePosted(s, items, today);
    var consumed := ChargeItems(s, items, today).value.movements;
    OutgoingTransfers(s, t, consumed);
    ReverseSucceedsIff(t, consumed);
    ReversePosted(t, consumed);
    GivenBackIsDrawn(t, consumed, b);
    var r := ReverseSale(t, consumed).value;
    assert MovesAt(t, r.stock, r.movements, b);
  }

  lemma SameQuantitiesSameLots(p: Product, q: Product, id: Id)
    requires ValidProduct(p) && ValidProduct(q) && SameShape(p, q)
    requires forall b: Bucket :: b.productId == id ==> BucketQuantity(p, b) == BucketQuantity(q, b)
    ensures p == q
  {
    forall i | 0 <= i < |p.lots|
      ensures p.lots[i] == q.lots[i]
    {
      var b := LotOf(id, p.lots[i].id);
      assert BucketQuantity(p, b) == BucketQuantity(q, b);
      LotFound(p.lots, p.lots[i]);
      LotFound(q.lots, q.lots[i]);
    }
    forall i | 0 <= i < |p.variants|
      ensures p.variants[i] == q.variants[i]
    {
      var b := VariantOf(id, p.variants[i].id);
      assert BucketQuantity(p, b) == BucketQuantity(q, b);
      VariantFound(p.variants, p.variants[i]);
      VariantFound(q.variants, q.variants[i]);
    }
    assert p.lots == q.lots && p.variants == q.variants;
    assert BucketQuantity(p, Untracked(id)) == BucketQuantity(q, Untracked(id));
  }

  lemma VariantFound(variants: seq<Variant>, v: Variant)
    requires ValidVariants(variants) && v in variants
    ensures FindVariant(variants, v.id).Some? && variants[FindVariant(variants, v.id).value] == v
  {
    var k :| 0 <= k < |variants| && variants[k] == v;
  }

  /** Charging a sale and reversing it is the identity on the whole stock. */
  lemma ChargeThenReverse(s: Stock, items: seq<Item>, today: int)
    requires ValidStock(s) && ChargeItems(s, items, today).Ok?
    ensures var charged := ChargeItems(s, items, today).value;
            var reversed := ReverseSale(charged.stock, charged.movements);
            reversed.Ok? && reversed.value.stock == s
  {
    ChargePosted(s, items, today);
    var charged := ChargeItems(s, items, today).value;
    var reversed := ReverseSale(charged.stock, charged.movements);
    forall b
      ensures reversed.Ok? && Quantity(reversed.value.stock, b) == Quantity(s, b)
    {
      ReverseGivesBackExactly(s, charged.stock, items, today, b);
      assert MovesAt(s, charged.stock, charged.movements, b);
    }
    assert reversed.Ok? by {
      ReverseGivesBackExactly(s, charged.stock, items, today, Untracked(0));
    }
    ReversePosted(charged.stock, charged.movements);
    var r := reversed.value.stock;
    SameShapesTrans(s, charged.stock, r);
    forall id | id in s
      ensures s[id] == r[id]
    {
      forall b: Bucket | b.productId == id
        ensures BucketQuantity(s[id], b) == BucketQuantity(r[id], b)
      {
        assert Quantity(r, b) == Quantity(s, b);
      }
      SameQuantitiesSameLots(s[id], r[id], id);
    }
  }

  // ----- The planner as the object the writer drives -----

  /** An in-memory copy of the locked rows; nothing is kept of a plan whose change is refused. */
  class StockPlan {
    var products: Stock
    var movements: seq<Movement>
    const today: int

    constructor (products: Stock, today: int)
      ensures this.products == products && movements == [] && this.today == today
    {
      this.products, this.today, movements := products, today, [];
    }

    method Apply(c: Change) returns (error: Option<StockError>)
      modifies this
      ensures match ApplyChange(old(products), c)
              case Ok(a) => error.None? && products == a.stock && movements == old(movements) + a.movements
              case Err(e) => error == Some(e)
    {
      if c.delta == 0 {
        return Some(InvalidDelta);
      }
      var id := c.bucket.productId;
      if id !in products {
        return Some(BucketNotFound);
      }
      var changed := Changed(products[id], c);
      if changed.Err? {
        return Some(changed.error);
      }
      if changed.value.Some? {
        var q := changed.value.value;
        products := products[id := q];
        movements := movements + [Movement(c.bucket, c.delta, BucketQuantity(q, c.bucket), ProductBalance(q))];
      }
      return None;
    }

    method ApplyEach(cs: seq<Change>) returns (error: Option<StockError>)
      modifies this
      ensures match ApplyChanges(old(products), cs)
              case Ok(a) => error.None? && products == a.stock && movements == old(movements) + a.movements
              case Err(e) => error == Some(e)
    {
      ghost var start, was := products, movements;
      assert cs[..0] == [];
      for n := 0 to |cs|
        invariant ApplyChanges(start, cs[..n]).Ok?
        invariant products == ApplyChanges(start, cs[..n]).value.stock
        invariant movements == was + ApplyChanges(start, cs[..n]).value.movements
      {
        assert cs[..n + 1][..n] == cs[..n];
        error := Apply(cs[n]);
        if error.Some? {
          RefusedForGood(start, cs, n + 1);
          return;
        }
      }
      assert cs[..|cs|] == cs;
      error := None;
    }

    method Charge(item: Item) returns (error: Option<StockError>)
      modifies this
      ensures match ChargeItem(old(products), item, today)
              case Ok(a) => error.None? && products == a.stock && movements == old(movements) + a.movements
              case Err(e) => error == Some(e)
    {
      if item.variantId.Some? {
        error := Apply(Change(VariantOf(item.productId, item.variantId.value), 0 - item.quantity, false));
        return;
      }
      if item.productId !in products {
        return Some(BucketNotFound);
      }
      var p := products[item.productId];
      if !p.useStock {
        return None;
      }
      var allocations := Allocate(item.quantity, UntrackedQuantity(p), p.lots, today);
      if allocations.Err? {
        return Some(allocations.error);
      }
      error := ApplyEach(AllocationChanges(item.productId, allocations.value));
    }
  }

  lemma {:induction false} RefusedForGood(s: Stock, cs: seq<Change>, n: nat)
    requires n <= |cs| && ApplyChanges(s, cs[..n]).Err?
    ensures ApplyChanges(s, cs) == ApplyChanges(s, cs[..n])
    decreases |cs| - n
  {
    if n == |cs| {
      assert cs[..n] == cs;
    } else {
      assert cs[..n + 1][..n] == cs[..n];
      RefusedForGood(s, cs, n + 1);
    }
  }
}
