/** Stock that leaves with its rows: src/products/infrastructure/product-stock-journal.ts. */
module StockRemoval {
  import opened Common
  import opened StockJournal
  import opened SaleStock

  function LotRemovals(id: Id, lots: seq<Lot>): seq<Change> {
    if lots == [] then []
    else
      var rest := LotRemovals(id, lots[..|lots| - 1]);
      var l := lots[|lots| - 1];
      if l.quantity > 0 then rest + [LotRemoval(id, l)] else rest
  }

  function VariantRemovals(id: Id, variants: seq<Variant>): seq<Change> {
    if variants == [] then []
    else
      var rest := VariantRemovals(id, variants[..|variants| - 1]);
      var v := variants[|variants| - 1];
      if v.quantity > 0 then rest + [VariantRemoval(id, v)] else rest
  }

  /** Everything a product holds, bucket by bucket; a product with variants has only those. */
  function Removals(id: Id, p: Product): seq<Change> {
    var untracked := if UntrackedQuantity(p) > 0 then [Change(Untracked(id), -UntrackedQuantity(p), true)] else [];
    (if p.hasVariants then [] else LotRemovals(id, p.lots) + untracked) + VariantRemovals(id, p.variants)
  }

  /** An untracked product holds nothing outside its lots and variants. */
  ghost predicate TrackedOnly(s: Stock) {
    forall id :: id in s && !s[id].useStock ==> UntrackedQuantity(s[id]) == 0
  }

  /** Each change takes what its bucket holds, and each bucket that holds anything is in the list once. */
  ghost predicate Drains(cs: seq<Change>, s: Stock, id: Id) {
    && DistinctBuckets(cs)
    && (forall c :: c in cs ==> c.bucket.productId == id && c.delta == -Quantity(s, c.bucket) && ApplyChange(s, c).Ok?
                                && (c.bucket.Untracked? ==> s[id].useStock))
  }

  ghost predicate Mentions(cs: seq<Change>, b: Bucket) {
    exists c :: c in cs && c.bucket == b
  }

  function LotRemoval(id: Id, l: Lot): Change {
    Change(LotOf(id, l.id), -l.quantity, false)
  }

  function VariantRemoval(id: Id, v: Variant): Change {
    Change(VariantOf(id, v.id), -v.quantity, false)
  }

  predicate RemovesLot(id: Id, lots: seq<Lot>, c: Change) {
    exists l :: l in lots && l.quantity > 0 && c == LotRemoval(id, l)
  }

  predicate RemovesVariant(id: Id, variants: seq<Variant>, c: Change) {
    exists v :: v in variants && v.quantity > 0 && c == VariantRemoval(id, v)
  }

  lemma {:induction false} LotRemovalsAre(id: Id, lots: seq<Lot>)
    ensures forall c :: c in LotRemovals(id, lots) <==> RemovesLot(id, lots, c)
  {
    if lots != [] {
      var n := |lots| - 1;
      LotRemovalsAre(id, lots[..n]);
      assert lots == lots[..n] + [lots[n]];
    }
  }

  lemma {:induction false} VariantRemovalsAre(id: Id, variants: seq<Variant>)
    ensures forall c :: c in VariantRemovals(id, variants) <==> RemovesVariant(id, variants, c)
  {
    if variants != [] {
      var n := |variants| - 1;
      VariantRemovalsAre(id, variants[..n]);
      assert variants == variants[..n] + [variants[n]];
    }
  }

  lemma {:induction false} LotRemovalsDistinct(id: Id, lots: seq<Lot>)
    requires ValidLots(lots)
    ensures DistinctBuckets(LotRemovals(id, lots))
  {
    if lots != [] {
      var n := |lots| - 1;
      LotRemovalsDistinct(id, lots[..n]);
      LotRemovalsAre(id, lots[..n]);
      var rest := LotRemovals(id, lots[..n]);
      forall i | 0 <= i < |rest|
        ensures rest[i].bucket != LotOf(id, lots[n].id)
      {
        assert rest[i] in rest;
        var l :| l in lots[..n] && l.quantity > 0 && rest[i] == LotRemoval(id, l);
        var k :| 0 <= k < n && lots[k] == l;
      }
    }
  }

  lemma {:induction false} VariantRemovalsDistinct(id: Id, variants: seq<Variant>)
    requires ValidVariants(variants)
    ensures DistinctBuckets(VariantRemovals(id, variants))
  {
    if variants != [] {
      var n := |variants| - 1;
      VariantRemovalsDistinct(id, variants[..n]);
      VariantRemovalsAre(id, variants[..n]);
      var rest := VariantRemovals(id, variants[..n]);
      forall i | 0 <= i < |rest|
        ensures rest[i].bucket != VariantOf(id, variants[n].id)
      {
        assert rest[i] in rest;
        var v :| v in variants[..n] && v.quantity > 0 && rest[i] == VariantRemoval(id, v);
        var k :| 0 <= k < n && variants[k] == v;
      }
    }
  }

  lemma LotRemovalApplies(s: Stock, id: Id, l: Lot)
    requires ValidStock(s) && id in s && l in s[id].lots && l.quantity > 0
    ensures var c := Change(LotOf(id, l.id), -l.quantity, false);
            !s[id].hasVariants && Quantity(s, c.bucket) == l.quantity && ApplyChange(s, c).Ok?
  {
    LotFound(s[id].lots, l);
    SumNonNegative(LotQuantities(s[id].lots));
    var k :| 0 <= k < |s[id].lots| && s[id].lots[k] == l;
    assert LotQuantities(s[id].lots)[k] == l.quantity;
    ChangeSucceedsIff(s, Change(LotOf(id, l.id), -l.quantity, false));
  }

  lemma VariantRemovalApplies(s: Stock, id: Id, v: Variant)
    requires ValidStock(s) && id in s && v in s[id].variants && v.quantity > 0
    ensures var c := Change(VariantOf(id, v.id), -v.quantity, false);
            Quantity(s, c.bucket) == v.quantity && ApplyChange(s, c).Ok?
  {
    VariantFound(s[id].variants, v);
    ChangeSucceedsIff(s, Change(VariantOf(id, v.id), -v.quantity, false));
  }

  lemma DrainsAppend(a: seq<Change>, b: seq<Change>, s: Stock, id: Id)
    requires Drains(a, s, id) && Drains(b, s, id)
    requires forall c, d :: c in a && d in b ==> c.bucket != d.bucket
    ensures Drains(a + b, s, id)
  {
    forall i, j | 0 <= i < j < |a + b|
      ensures (a + b)[i].bucket != (a + b)[j].bucket
    {
      if i < |a| <= j {
        assert a[i] in a && b[j - |a|] in b;
      }
    }
  }

  lemma LotsDrained(s: Stock, id: Id)
    requires ValidStock(s) && id in s
    ensures Drains(LotRemovals(id, s[id].lots), s, id)
    ensures forall c :: c in LotRemovals(id, s[id].lots) ==> c.bucket.LotOf?
  {
    LotRemovalsAre(id, s[id].lots);
    LotRemovalsDistinct(id, s[id].lots);
    forall c | c in LotRemovals(id, s[id].lots)
      ensures c.bucket.LotOf? && c.bucket.productId == id && c.delta == -Quantity(s, c.bucket) && ApplyChange(s, c).Ok?
    {
      var l :| l in s[id].lots && l.quantity > 0 && c == LotRemoval(id, l);
      LotRemovalApplies(s, id, l);
    }
  }

  lemma VariantsDrained(s: Stock, id: Id)
    requires ValidStock(s) && id in s
    ensures Drains(VariantRemovals(id, s[id].variants), s, id)
    ensures forall c :: c in VariantRemovals(id, s[id].variants) ==> c.bucket.VariantOf?
  {
    VariantRemovalsAre(id, s[id].variants);
    VariantRemovalsDistinct(id, s[id].variants);
    forall c | c in VariantRemovals(id, s[id].variants)
      ensures c.bucket.VariantOf? && c.bucket.productId == id && c.delta == -Quantity(s, c.bucket) && ApplyChange(s, c).Ok?
    {
      var v :| v in s[id].variants && v.quantity > 0 && c == VariantRemoval(id, v);
      VariantRemovalApplies(s, id, v);
    }
  }

  lemma RemovalsDrain(s: Stock, id: Id)
    requires ValidStock(s) && TrackedOnly(s) && id in s
    ensures Drains(Removals(id, s[id]), s, id)
  {
    var p := s[id];
    LotsDrained(s, id);
    VariantsDrained(s, id);
    if !p.hasVariants {
      var untracked := if UntrackedQuantity(p) > 0 then [Change(Untracked(id), -UntrackedQuantity(p), true)] else [];
      if untracked != [] {
        ChangeSucceedsIff(s, untracked[0]);
      }
      assert Drains(untracked, s, id);
      DrainsAppend(LotRemovals(id, p.lots), untracked, s, id);
      DrainsAppend(LotRemovals(id, p.lots) + untracked, VariantRemovals(id, p.variants), s, id);
    } else {
      assert Removals(id, p) == VariantRemovals(id, p.variants);
    }
  }

  function DeltaOn(cs: seq<Change>, b: Bucket): int {
    if cs == [] then 0
    else DeltaOn(cs[..|cs| - 1], b) + if cs[|cs| - 1].bucket == b then cs[|cs| - 1].delta else 0
  }

  /** A tracked bucket's change is recorded with its delta. */
  lemma RecordedDelta(s: Stock, c: Change, b: Bucket)
    requires ApplyChange(s, c).Ok? && (c.bucket.Untracked? ==> s[c.bucket.productId].useStock)
    ensures SumOn(ApplyChange(s, c).value.movements, b) == if c.bucket == b then c.delta else 0
  {
    OneMovement(s, c, b);
  }

  /** Changes never turn stock tracking off. */
  lemma StillTracked(s: Stock, cs: seq<Change>, id: Id)
    requires ValidStock(s) && ApplyChanges(s, cs).Ok? && id in s && s[id].useStock
    ensures var after := ApplyChanges(s, cs).value.stock; id in after && after[id].useStock
  {
    ApplyChangesPosted(s, cs);
    assert SameShape(s[id], ApplyChanges(s, cs).value.stock[id]);
  }

  lemma {:induction false} RecordedDeltas(s: Stock, cs: seq<Change>, b: Bucket)
    requires ValidStock(s) && ApplyChanges(s, cs).Ok?
    requires forall c :: c in cs && c.bucket.Untracked? ==> c.bucket.productId in s && s[c.bucket.productId].useStock
    ensures SumOn(ApplyChanges(s, cs).value.movements, b) == DeltaOn(cs, b)
  {
    if cs != [] {
      var n := |cs| - 1;
      RecordedDeltas(s, cs[..n], b);
      var done := ApplyChanges(s, cs[..n]).value;
      assert cs[n] in cs;
      if cs[n].bucket.Untracked? {
        StillTracked(s, cs[..n], cs[n].bucket.productId);
      }
      RecordedDelta(done.stock, cs[n], b);
      SumOnAppend(done.movements, ApplyChange(done.stock, cs[n]).value.movements, b);
    }
  }

  lemma {:induction false} AbsentDelta(cs: seq<Change>, b: Bucket)
    requires forall c :: c in cs ==> c.bucket != b
    ensures DeltaOn(cs, b) == 0
  {
    if cs != [] {
      assert cs[|cs| - 1] in cs;
      AbsentDelta(cs[..|cs| - 1], b);
    }
  }

  lemma {:induction false} PresentDelta(cs: seq<Change>, k: nat)
    requires DistinctBuckets(cs) && k < |cs|
    ensures DeltaOn(cs, cs[k].bucket) == cs[k].delta
  {
    var n := |cs| - 1;
    if k == n {
      forall c | c in cs[..n]
        ensures c.bucket != cs[n].bucket
      {
        var i :| 0 <= i < n && cs[i] == c;
      }
      AbsentDelta(cs[..n], cs[n].bucket);
    } else {
      PresentDelta(cs[..n], k);
    }
  }

  lemma DrainedDelta(cs: seq<Change>, s: Stock, id: Id, b: Bucket)
    requires Drains(cs, s, id)
    ensures DeltaOn(cs, b) == if Mentions(cs, b) then -Quantity(s, b) else 0
  {
    if Mentions(cs, b) {
      var c :| c in cs && c.bucket == b;
      var k :| 0 <= k < |cs| && cs[k] == c;
      PresentDelta(cs, k);
    } else {
      assert forall c :: c in cs ==> c.bucket != b;
      AbsentDelta(cs, b);
    }
  }

  lemma RemovalsMention(s: Stock, id: Id, b: Bucket)
    requires ValidStock(s) && id in s && b.productId == id && Quantity(s, b) != 0
    ensures Mentions(Removals(id, s[id]), b)
  {
    var p := s[id];
    LotRemovalsAre(id, p.lots);
    VariantRemovalsAre(id, p.variants);
    match b
    case Untracked(_) =>
      SumNonNegative(LotQuantities(p.lots));
      assert Change(b, -UntrackedQuantity(p), true) in Removals(id, p);
    case LotOf(_, lotId) =>
      var l := p.lots[FindLot(p.lots, lotId).value];
      LotRemovalApplies(s, id, l);
      assert LotRemoval(id, l) in Removals(id, p);
    case VariantOf(_, variantId) =>
      var v := p.variants[FindVariant(p.variants, variantId).value];
      assert VariantRemoval(id, v) in Removals(id, p);
  }

  /** Removing a product's stock always works and leaves every one of its buckets at zero, all of it journaled. */
  lemma RemovalEmpties(s: Stock, id: Id)
    requires ValidStock(s) && TrackedOnly(s) && id in s
    ensures ApplyChanges(s, Removals(id, s[id])).Ok?
    ensures var a := ApplyChanges(s, Removals(id, s[id])).value;
            Posted(s, a.stock, a.movements) && forall b: Bucket :: b.productId == id ==> Quantity(a.stock, b) == 0
  {
    var cs := Removals(id, s[id]);
    RemovalsDrain(s, id);
    IndependentChangesApply(s, cs);
    ApplyChangesPosted(s, cs);
    var a := ApplyChanges(s, cs).value;
    forall b: Bucket | b.productId == id
      ensures Quantity(a.stock, b) == 0
    {
      RecordedDeltas(s, cs, b);
      DrainedDelta(cs, s, id, b);
      if Quantity(s, b) != 0 {
        RemovalsMention(s, id, b);
      }
      assert MovesAt(s, a.stock, a.movements, b);
    }
  }

  /** An untracked product never gets a movement on its untracked bucket. */
  lemma {:induction false} UntrackedStays(s: Stock, cs: seq<Change>, id: Id)
    requires ValidStock(s) && id in s && !s[id].useStock && ApplyChanges(s, cs).Ok?
    ensures SumOn(ApplyChanges(s, cs).value.movements, Untracked(id)) == 0
  {
    if cs != [] {
      var n := |cs| - 1;
      UntrackedStays(s, cs[..n], id);
      ApplyChangesPosted(s, cs[..n]);
      var done := ApplyChanges(s, cs[..n]).value;
      assert SameShape(s[id], done.stock[id]);
      OneMovement(done.stock, cs[n], Untracked(id));
      SumOnAppend(done.movements, ApplyChange(done.stock, cs[n]).value.movements, Untracked(id));
    }
  }

  lemma TrackedKept(s: Stock, cs: seq<Change>)
    requires ValidStock(s) && TrackedOnly(s) && ApplyChanges(s, cs).Ok?
    ensures TrackedOnly(ApplyChanges(s, cs).value.stock)
  {
    ApplyChangesPosted(s, cs);
    var a := ApplyChanges(s, cs).value;
    forall id | id in a.stock && !a.stock[id].useStock
      ensures UntrackedQuantity(a.stock[id]) == 0
    {
      assert SameShape(s[id], a.stock[id]) && MovesAt(s, a.stock, a.movements, Untracked(id));
      UntrackedStays(s, cs, id);
    }
  }
}
