/** The stock journal: src/inventory/domain/stock-plan.ts and sale-reversal.ts, with the writer's charge
and reversal (src/inventory/infrastructure/stock-journal.writer.ts).

A bucket is the smallest journaled quantity: a lot, a variant, or the untracked part of a product,
`Product.quantity` minus its lots. Every change of a bucket is one movement row.
*/
module StockJournal {
  import opened Common

  datatype Lot = Lot(id: Id, quantity: int, expiresOn: int)

  datatype Variant = Variant(id: Id, quantity: int)

  datatype Product = Product(quantity: int, useStock: bool, hasVariants: bool, lots: seq<Lot>, variants: seq<Variant>)

  type Stock = map<Id, Product>

  datatype Bucket =
    | Untracked(productId: Id)
    | LotOf(productId: Id, lotId: Id)
    | VariantOf(productId: Id, variantId: Id)

  datatype Change = Change(bucket: Bucket, delta: int, skipIfNotStocked: bool)

  datatype Movement = Movement(bucket: Bucket, delta: int, balanceAfter: int, productBalanceAfter: int)

  datatype StockError = InvalidDelta | InvalidQuantity | BucketNotFound | NotTracked | InsufficientStock

  datatype Applied = Applied(stock: Stock, movements: seq<Movement>)

  // ----- Buckets -----

  function LotQuantities(lots: seq<Lot>): (r: seq<int>)
    ensures |r| == |lots| && forall i :: 0 <= i < |r| ==> r[i] == lots[i].quantity
  {
    seq(|lots|, i requires 0 <= i < |lots| => lots[i].quantity)
  }

  function VariantQuantities(variants: seq<Variant>): (r: seq<int>)
    ensures |r| == |variants| && forall i :: 0 <= i < |r| ==> r[i] == variants[i].quantity
  {
    seq(|variants|, i requires 0 <= i < |variants| => variants[i].quantity)
  }

  function FindLot(lots: seq<Lot>, id: Id): (r: Option<nat>)
    ensures r.Some? ==> r.value < |lots| && lots[r.value].id == id
    ensures r.None? ==> forall i :: 0 <= i < |lots| ==> lots[i].id != id
  {
    if lots == [] then None
    else if lots[0].id == id then Some(0)
    else
      match FindLot(lots[1..], id)
      case None => None
      case Some(i) => Some(i + 1)
  }

  function FindVariant(variants: seq<Variant>, id: Id): (r: Option<nat>)
    ensures r.Some? ==> r.value < |variants| && variants[r.value].id == id
    ensures r.None? ==> forall i :: 0 <= i < |variants| ==> variants[i].id != id
  {
    if variants == [] then None
    else if variants[0].id == id then Some(0)
    else
      match FindVariant(variants[1..], id)
      case None => None
      case Some(i) => Some(i + 1)
  }

  function UntrackedQuantity(p: Product): int {
    p.quantity - Sum(LotQuantities(p.lots))
  }

  /** A bucket that does not exist holds nothing. */
  function BucketQuantity(p: Product, b: Bucket): int {
    match b
    case Untracked(_) => UntrackedQuantity(p)
    case LotOf(_, id) =>
      (match FindLot(p.lots, id)
       case None => 0
       case Some(i) => p.lots[i].quantity)
    case VariantOf(_, id) =>
      (match FindVariant(p.variants, id)
       case None => 0
       case Some(i) => p.variants[i].quantity)
  }

  function Quantity(s: Stock, b: Bucket): int {
    if b.productId in s then BucketQuantity(s[b.productId], b) else 0
  }

  predicate Has(s: Stock, b: Bucket) {
    && b.productId in s
    && match b
       case Untracked(id) => !s[id].hasVariants
       case LotOf(id, lotId) => FindLot(s[id].lots, lotId).Some?
       case VariantOf(id, variantId) => FindVariant(s[id].variants, variantId).Some?
  }

  ghost predicate ValidLots(lots: seq<Lot>) {
    && (forall i, j :: 0 <= i < j < |lots| ==> lots[i].id != lots[j].id)
    && (forall i :: 0 <= i < |lots| ==> 0 <= lots[i].quantity)
  }

  ghost predicate ValidVariants(variants: seq<Variant>) {
    && (forall i, j :: 0 <= i < j < |variants| ==> variants[i].id != variants[j].id)
    && (forall i :: 0 <= i < |variants| ==> 0 <= variants[i].quantity)
  }

  /** No bucket is negative, and a product with variants holds no stock of its own. */
  ghost predicate ValidProduct(p: Product) {
    && ValidLots(p.lots) && ValidVariants(p.variants)
    && 0 <= UntrackedQuantity(p)
    && (p.hasVariants ==> p.quantity == 0)
    && (p.variants != [] ==> p.hasVariants)
  }

  ghost predicate ValidStock(s: Stock) {
    forall id :: id in s ==> ValidProduct(s[id])
  }

  ghost predicate SameShape(p: Product, q: Product) {
    && p.useStock == q.useStock && p.hasVariants == q.hasVariants
    && |p.lots| == |q.lots| && (forall i :: 0 <= i < |p.lots| ==> p.lots[i].id == q.lots[i].id && p.lots[i].expiresOn == q.lots[i].expiresOn)
    && |p.variants| == |q.variants| && (forall i :: 0 <= i < |p.variants| ==> p.variants[i].id == q.variants[i].id)
  }

  // ----- One change -----

  function ProductBalance(p: Product): int {
    if p.hasVariants then Sum(VariantQuantities(p.variants)) else p.quantity
  }

  function WithLot(p: Product, i: nat, delta: int): Product
    requires i < |p.lots|
  {
    p.(quantity := p.quantity + delta, lots := p.lots[i := p.lots[i].(quantity := p.lots[i].quantity + delta)])
  }

  function WithVariant(p: Product, i: nat, delta: int): Product
    requires i < |p.variants|
  {
    p.(variants := p.variants[i := p.variants[i].(quantity := p.variants[i].quantity + delta)])
  }

  /** The product after a change of one of its buckets; `Ok(None)` when the change is dropped. */
  function Changed(p: Product, c: Change): Result<Option<Product>, StockError> {
    if c.delta == 0 then Err(InvalidDelta)
    else
      match c.bucket
      case Untracked(_) =>
        if p.hasVariants then Err(BucketNotFound)
        else if !p.useStock then (if c.skipIfNotStocked then Ok(None) else Err(NotTracked))
        else if UntrackedQuantity(p) + c.delta < 0 then Err(InsufficientStock)
        else Ok(Some(p.(quantity := p.quantity + c.delta)))
      case LotOf(_, id) =>
        (match FindLot(p.lots, id)
         case None => Err(BucketNotFound)
         case Some(i) =>
           if p.hasVariants then Err(BucketNotFound)
           else if p.lots[i].quantity + c.delta < 0 || p.quantity + c.delta < 0 then Err(InsufficientStock)
           else Ok(Some(WithLot(p, i, c.delta))))
      case VariantOf(_, id) =>
        (match FindVariant(p.variants, id)
         case None => Err(BucketNotFound)
         case Some(i) =>
           if p.variants[i].quantity + c.delta < 0 then Err(InsufficientStock)
           else Ok(Some(WithVariant(p, i, c.delta))))
  }

  function ApplyChange(s: Stock, c: Change): Result<Applied, StockError> {
    if c.delta == 0 then Err(InvalidDelta)
    else if c.bucket.productId !in s then Err(BucketNotFound)
    else
      match Changed(s[c.bucket.productId], c)
      case Err(e) => Err(e)
      case Ok(None) => Ok(Applied(s, []))
      case Ok(Some(q)) =>
        Ok(Applied(s[c.bucket.productId := q],
                   [Movement(c.bucket, c.delta, BucketQuantity(q, c.bucket), ProductBalance(q))]))
  }

  lemma LotsAfter(lots: seq<Lot>, i: nat, delta: int)
    requires ValidLots(lots) && i < |lots| && 0 <= lots[i].quantity + delta
    ensures var after := lots[i := lots[i].(quantity := lots[i].quantity + delta)];
            && ValidLots(after)
            && Sum(LotQuantities(after)) == Sum(LotQuantities(lots)) + delta
            && forall id :: FindLot(after, id) == FindLot(lots, id)
  {
    var after := lots[i := lots[i].(quantity := lots[i].quantity + delta)];
    assert LotQuantities(after) == LotQuantities(lots)[i := lots[i].quantity + delta];
    SumUpdate(LotQuantities(lots), i, lots[i].quantity + delta);
    forall id
      ensures FindLot(after, id) == FindLot(lots, id)
    {
      SameLotIds(after, lots, id);
    }
  }

  lemma {:induction false} SameLotIds(a: seq<Lot>, b: seq<Lot>, id: Id)
    requires |a| == |b| && forall i :: 0 <= i < |a| ==> a[i].id == b[i].id
    ensures FindLot(a, id) == FindLot(b, id)
  {
    if a != [] {
      SameLotIds(a[1..], b[1..], id);
    }
  }

  lemma {:induction false} SameVariantIds(a: seq<Variant>, b: seq<Variant>, id: Id)
    requires |a| == |b| && forall i :: 0 <= i < |a| ==> a[i].id == b[i].id
    ensures FindVariant(a, id) == FindVariant(b, id)
  {
    if a != [] {
      SameVariantIds(a[1..], b[1..], id);
    }
  }

  lemma VariantsAfter(variants: seq<Variant>, i: nat, delta: int)
    requires ValidVariants(variants) && i < |variants| && 0 <= variants[i].quantity + delta
    ensures var after := variants[i := variants[i].(quantity := variants[i].quantity + delta)];
            ValidVariants(after) && forall id :: FindVariant(after, id) == FindVariant(variants, id)
  {
    var after := variants[i := variants[i].(quantity := variants[i].quantity + delta)];
    forall id
      ensures FindVariant(after, id) == FindVariant(variants, id)
    {
      SameVariantIds(after, variants, id);
    }
  }

  lemma LotKeepsShape(p: Product, i: nat, delta: int)
    requires ValidProduct(p) && !p.hasVariants && i < |p.lots| && 0 <= p.lots[i].quantity + delta
    ensures ValidProduct(WithLot(p, i, delta)) && SameShape(p, WithLot(p, i, delta))
    ensures UntrackedQuantity(WithLot(p, i, delta)) == UntrackedQuantity(p)
  {
    LotsAfter(p.lots, i, delta);
  }

  lemma LotChangedExactly(p: Product, i: nat, delta: int, b: Bucket)
    requires ValidProduct(p) && !p.hasVariants && i < |p.lots| && 0 <= p.lots[i].quantity + delta
    ensures ValidProduct(WithLot(p, i, delta)) && SameShape(p, WithLot(p, i, delta))
    ensures BucketQuantity(WithLot(p, i, delta), b) ==
            BucketQuantity(p, b) + (if b.LotOf? && FindLot(p.lots, b.lotId) == Some(i) then delta else 0)
  {
    LotKeepsShape(p, i, delta);
    if b.LotOf? {
      LotsAfter(p.lots, i, delta);
    }
  }

  lemma VariantChangedExactly(p: Product, i: nat, delta: int, b: Bucket)
    requires ValidProduct(p) && i < |p.variants| && 0 <= p.variants[i].quantity + delta
    ensures ValidProduct(WithVariant(p, i, delta)) && SameShape(p, WithVariant(p, i, delta))
    ensures BucketQuantity(WithVariant(p, i, delta), b) ==
            BucketQuantity(p, b) + (if b.VariantOf? && FindVariant(p.variants, b.variantId) == Some(i) then delta else 0)
  {
    VariantsAfter(p.variants, i, delta);
  }

  /** A change moves its own bucket by exactly its delta, never below zero, and no other bucket of the product. */
  lemma ChangedExactly(p: Product, c: Change, b: Bucket)
    requires ValidProduct(p) && Changed(p, c).Ok? && Changed(p, c).value.Some?
    requires b.productId == c.bucket.productId
    ensures var q := Changed(p, c).value.value;
            && ValidProduct(q) && SameShape(p, q)
            && BucketQuantity(q, b) == BucketQuantity(p, b) + (if b == c.bucket then c.delta else 0)
  {
    match c.bucket
    case Untracked(_) =>
    case LotOf(_, id) =>
      LotChangedExactly(p, FindLot(p.lots, id).value, c.delta, b);
    case VariantOf(_, id) =>
      VariantChangedExactly(p, FindVariant(p.variants, id).value, c.delta, b);
  }

  /** When a change of an existing bucket is refused: it would go negative, or its product does not track stock. */
  lemma ChangeSucceedsIff(s: Stock, c: Change)
    requires ValidStock(s)
    ensures ApplyChange(s, c).Ok? <==>
            && c.delta != 0 && Has(s, c.bucket)
            && var p := s[c.bucket.productId];
               match c.bucket
               case Untracked(_) => if p.useStock then 0 <= Quantity(s, c.bucket) + c.delta else c.skipIfNotStocked
               case LotOf(_, _) => !p.hasVariants && 0 <= Quantity(s, c.bucket) + c.delta
               case VariantOf(_, _) => 0 <= Quantity(s, c.bucket) + c.delta
  {
    if c.bucket.LotOf? && Has(s, c.bucket) {
      SumNonNegative(LotQuantities(s[c.bucket.productId].lots));
    }
  }

  // ----- Posting -----

  function SumOn(ms: seq<Movement>, b: Bucket): int {
    if ms == [] then 0
    else SumOn(ms[..|ms| - 1], b) + if ms[|ms| - 1].bucket == b then ms[|ms| - 1].delta else 0
  }

  lemma {:induction false} SumOnAppend(a: seq<Movement>, c: seq<Movement>, b: Bucket)
    ensures SumOn(a + c, b) == SumOn(a, b) + SumOn(c, b)
  {
    if c == [] {
      assert a + c == a;
    } else {
      SumOnAppend(a, c[..|c| - 1], b);
      assert (a + c)[..|a + c| - 1] == a + c[..|c| - 1];
    }
  }

  ghost predicate SameShapes(s: Stock, t: Stock) {
    s.Keys == t.Keys && forall id :: id in s ==> SameShape(s[id], t[id])
  }

  predicate MovesAt(s: Stock, t: Stock, ms: seq<Movement>, b: Bucket) {
    Quantity(t, b) == Quantity(s, b) + SumOn(ms, b)
  }

  /** `t` is `s` after the movements `ms`: same rows, and each bucket moved by exactly what was recorded on it. */
  ghost predicate Posted(s: Stock, t: Stock, ms: seq<Movement>) {
    ValidStock(t) && SameShapes(s, t) && forall b :: MovesAt(s, t, ms, b)
  }

  lemma SameShapesTrans(s: Stock, t: Stock, u: Stock)
    requires SameShapes(s, t) && SameShapes(t, u)
    ensures SameShapes(s, u)
  {
    forall id | id in s
      ensures SameShape(s[id], u[id])
    {
      assert SameShape(s[id], t[id]) && SameShape(t[id], u[id]);
    }
  }

  lemma PostedTrans(s: Stock, t: Stock, u: Stock, a: seq<Movement>, c: seq<Movement>)
    requires Posted(s, t, a) && Posted(t, u, c)
    ensures Posted(s, u, a + c)
  {
    SameShapesTrans(s, t, u);
    forall b
      ensures MovesAt(s, u, a + c, b)
    {
      assert MovesAt(s, t, a, b) && MovesAt(t, u, c, b);
      SumOnAppend(a, c, b);
    }
  }

  lemma ReplacedPosted(s: Stock, q: Product, m: Movement)
    requires ValidStock(s) && m.bucket.productId in s && ValidProduct(q) && SameShape(s[m.bucket.productId], q)
    requires forall b: Bucket :: b.productId == m.bucket.productId ==>
               BucketQuantity(q, b) == BucketQuantity(s[m.bucket.productId], b) + (if b == m.bucket then m.delta else 0)
    ensures Posted(s, s[m.bucket.productId := q], [m])
  {
    var t := s[m.bucket.productId := q];
    assert [m][..0] == [];
    assert t.Keys == s.Keys;
    forall b
      ensures MovesAt(s, t, [m], b)
    {
      assert SumOn([m], b) == if m.bucket == b then m.delta else 0;
    }
  }

  /** The row a change writes. */
  ghost predicate Records(c: Change, a: Applied) {
    a.movements == [] ||
    exists balance, total :: a.movements == [Movement(c.bucket, c.delta, balance, total)] && balance == Quantity(a.stock, c.bucket)
  }

  lemma ApplyChangePosted(s: Stock, c: Change)
    requires ValidStock(s) && ApplyChange(s, c).Ok?
    ensures var a := ApplyChange(s, c).value;
            Posted(s, a.stock, a.movements) && Records(c, a)
  {
    var a := ApplyChange(s, c).value;
    var p := s[c.bucket.productId];
    if a.movements != [] {
      var q := Changed(p, c).value.value;
      var m := a.movements[0];
      ChangedExactly(p, c, c.bucket);
      forall b: Bucket | b.productId == c.bucket.productId
        ensures BucketQuantity(q, b) == BucketQuantity(p, b) + (if b == m.bucket then m.delta else 0)
      {
        ChangedExactly(p, c, b);
      }
      ReplacedPosted(s, q, m);
    } else {
      assert SameShapes(s, s) && forall b :: MovesAt(s, s, [], b);
    }
  }

  function ApplyChanges(s: Stock, cs: seq<Change>): Result<Applied, StockError> {
    if cs == [] then Ok(Applied(s, []))
    else
      match ApplyChanges(s, cs[..|cs| - 1])
      case Err(e) => Err(e)
      case Ok(done) =>
        match ApplyChange(done.stock, cs[|cs| - 1])
        case Err(e) => Err(e)
        case Ok(last) => Ok(Applied(last.stock, done.movements + last.movements))
  }

  lemma {:induction false} ApplyChangesPosted(s: Stock, cs: seq<Change>)
    requires ValidStock(s) && ApplyChanges(s, cs).Ok?
    ensures Posted(s, ApplyChanges(s, cs).value.stock, ApplyChanges(s, cs).value.movements)
  {
    if cs == [] {
      assert SameShapes(s, s) && forall b :: MovesAt(s, s, [], b);
    } else {
      var n := |cs| - 1;
      ApplyChangesPosted(s, cs[..n]);
      var done := ApplyChanges(s, cs[..n]).value;
      var last := ApplyChange(done.stock, cs[n]).value;
      ApplyChangePosted(done.stock, cs[n]);
      PostedTrans(s, done.stock, last.stock, done.movements, last.movements);
    }
  }
}
