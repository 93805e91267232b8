/** The rank order in which the operations of `Locks` take their locks, and the mixes of them it keeps from deadlock:
src/inventory/infrastructure/stock-journal.writer.ts, src/products/products.service.ts and
src/promotions/infrastructure/prisma-promotion-usage.repository.ts.

Key shares of inserted rows are outside the order. They do no harm while nobody else wants the row for update at a point
where it already holds something.
*/
module LockOrder {
  import opened Common
  import opened Locks
  import opened Deadlocks

  /** Promotion counters are updated before the stock rows are locked, or after. */
  datatype Order = CountersFirst | CountersLast

  function Level(r: Resource, o: Order): nat {
    match r
    case LifecycleGate => 0
    case TenantRow => 1
    case SlotRow(_) => 2
    case SessionRow(_) => 3
    case RefundRow(_) => 4
    case SaleRow(_) => 5
    case CustomerRow(_) => 6
    case QuoteRow(_) => 7
    case PromotionRow(_) => if o == CountersFirst then 8 else 12
    case ProductRow(_) => 9
    case LotRow(_) => 10
    case VariantRow(_) => 11
    case FolioRow => 13
  }

  function Number(r: Resource): nat {
    match r
    case LifecycleGate => 0
    case TenantRow => 0
    case FolioRow => 0
    case _ => r.id
  }

  /** Locks are ranked by level, then by id. */
  function Rank(o: Order): Resource -> (nat, nat) {
    (r: Resource) => (Level(r, o), Number(r))
  }

  /** Everything but key shares is taken in rank order. */
  ghost predicate Ranked(program: seq<Lock>, o: Order) {
    forall u, v :: 0 <= u < v < |program| ==>
      program[u].mode == KeyShare || Below(Rank(o)(program[u].resource), Rank(o)(program[v].resource))
  }

  ghost predicate AtMost(program: seq<Lock>, o: Order, high: nat) {
    forall u :: 0 <= u < |program| ==> program[u].mode == KeyShare || Level(program[u].resource, o) <= high
  }

  ghost predicate AtLeast(program: seq<Lock>, o: Order, low: nat) {
    forall u :: 0 <= u < |program| ==> low <= Level(program[u].resource, o)
  }

  lemma RankedConcat(a: seq<Lock>, b: seq<Lock>, o: Order, mid: nat, high: nat)
    requires Ranked(a, o) && Ranked(b, o) && AtMost(a, o, mid) && AtLeast(b, o, mid + 1) && AtMost(b, o, high) && mid <= high
    ensures Ranked(a + b, o) && AtMost(a + b, o, high)
  {
  }

  lemma AtLeastConcat(a: seq<Lock>, b: seq<Lock>, o: Order, low: nat)
    requires AtLeast(a, o, low) && AtLeast(b, o, low)
    ensures AtLeast(a + b, o, low)
  {
  }

  lemma JournalRanked(products: seq<Id>, lots: seq<Id>, variants: seq<Id>, o: Order)
    requires Ascending(products) && Ascending(lots) && Ascending(variants)
    ensures Ranked(Journal(products, lots, variants), o)
    ensures AtLeast(Journal(products, lots, variants), o, 9) && AtMost(Journal(products, lots, variants), o, 11)
  {
    var p, l, v := Products(products, Update), Lots(lots), Variants(variants, Update);
    ProductsRanked(products, o);
    LotsRanked(lots, o);
    VariantsRanked(variants, o);
    RankedConcat(p, l, o, 9, 10);
    AtLeastConcat(p, l, o, 9);
    RankedConcat(p + l, v, o, 10, 11);
    AtLeastConcat(p + l, v, o, 9);
  }

  lemma ProductsRanked(ids: seq<Id>, o: Order)
    requires Ascending(ids)
    ensures var p := Products(ids, Update); Ranked(p, o) && AtLeast(p, o, 9) && AtMost(p, o, 9)
  {
  }

  lemma LotsRanked(ids: seq<Id>, o: Order)
    requires Ascending(ids)
    ensures var l := Lots(ids); Ranked(l, o) && AtLeast(l, o, 9) && AtLeast(l, o, 10) && AtMost(l, o, 10)
  {
  }

  lemma VariantsRanked(ids: seq<Id>, o: Order)
    requires Ascending(ids)
    ensures var v := Variants(ids, Update); Ranked(v, o) && AtLeast(v, o, 9) && AtLeast(v, o, 11) && AtMost(v, o, 11)
  {
  }

  lemma CountersRanked(promotions: seq<Id>, o: Order)
    requires Ascending(promotions)
    ensures var c := Counters(promotions);
            Ranked(c, o) && if o == CountersFirst then AtLeast(c, o, 8) && AtMost(c, o, 8) else AtLeast(c, o, 12) && AtMost(c, o, 12)
  {
  }

  lemma SellingRanked(promotions: seq<Id>, products: seq<Id>, lots: seq<Id>, variants: seq<Id>, o: Order)
    requires Ascending(promotions) && Ascending(products) && Ascending(lots) && Ascending(variants)
    requires promotions == [] || o == CountersFirst
    ensures Ranked(Selling(promotions, products, lots, variants), o) && AtLeast(Selling(promotions, products, lots, variants), o, 8)
    ensures AtMost(Selling(promotions, products, lots, variants), o, 13)
  {
    var counters, journal, folio := Counters(promotions), Journal(products, lots, variants), [Lock(FolioRow, NoKeyUpdate)];
    CountersRanked(promotions, o);
    JournalRanked(products, lots, variants, o);
    RankedConcat(journal, folio, o, 11, 13);
    AtLeastConcat(journal, folio, o, 9);
    RankedConcat(counters, journal + folio, o, 8, 13);
    AtLeastConcat(counters, journal + folio, o, 8);
  }

  lemma {:induction false} RefsShare(cart: seq<Line>)
    ensures forall x :: 0 <= x < |Refs(cart)| ==>
              Refs(cart)[x].mode == KeyShare && (Refs(cart)[x].resource.ProductRow? || Refs(cart)[x].resource.VariantRow?)
  {
    if cart != [] {
      RefsShare(cart[..|cart| - 1]);
    }
  }

  lemma FrontRanked(bound: Option<Binding>, sale: Id, o: Order)
    ensures Ranked(SaleFront(bound, sale), o) && AtMost(SaleFront(bound, sale), o, 5)
  {
  }

  lemma BotFrontRanked(customer: Id, quote: Option<Id>, cart: seq<Line>, o: Order)
    ensures Ranked(BotFront(customer, quote) + Refs(cart), o) && AtMost(BotFront(customer, quote) + Refs(cart), o, 7)
  {
    RefsShare(cart);
    RankedConcat(BotFront(customer, quote), Refs(cart), o, 7, 7);
  }

  lemma ChargeRanked(op: Operation, o: Order)
    requires op.Charge? && SortedIds(op) && (op.promotions == [] || o == CountersFirst)
    ensures Ranked(Program(op), o)
  {
    FrontRanked(op.bound, op.sale, o);
    SellingRanked(op.promotions, op.products, op.lots, op.variants, o);
    RankedConcat(SaleFront(op.bound, op.sale), Selling(op.promotions, op.products, op.lots, op.variants), o, 5, 13);
  }

  lemma ConfirmRanked(op: Operation, o: Order)
    requires op.ConfirmBot? && SortedIds(op) && (op.promotions == [] || o == CountersFirst)
    ensures Ranked(Program(op), o)
  {
    BotFrontRanked(op.customer, op.quote, op.cart, o);
    SellingRanked(op.promotions, op.products, op.lots, op.variants, o);
    RankedConcat(BotFront(op.customer, op.quote) + Refs(op.cart), Selling(op.promotions, op.products, op.lots, op.variants), o, 7, 13);
  }

  lemma CancelRanked(op: Operation, o: Order)
    requires op.Cancel? && SortedIds(op) && (op.promotions == [] || o == CountersLast)
    ensures Ranked(Program(op), o)
  {
    var journal, counters := Journal(op.products, op.lots, op.variants), Counters(op.promotions);
    JournalRanked(op.products, op.lots, op.variants, o);
    CountersRanked(op.promotions, o);
    RankedConcat(journal, counters, o, 11, 12);
    AtLeastConcat(journal, counters, o, 9);
    RankedConcat([Lock(SaleRow(op.sale), Update)], journal + counters, o, 5, 12);
  }

  lemma StockWriteRanked(op: Operation, o: Order)
    requires (op.WriteVariant? || op.WriteLot?) && SortedIds(op)
    ensures Ranked(Program(op), o)
  {
    JournalRanked([op.product], op.lots, op.variants, o);
    RankedConcat([Lock(LifecycleGate, Share)], Journal([op.product], op.lots, op.variants), o, 0, 11);
  }

  lemma PriceListRanked(op: Operation, o: Order)
    requires op.CreatePriceList?
    ensures Ranked(Program(op), o)
  {
    RankedConcat([Lock(LifecycleGate, Update)], Products(op.products, KeyShare) + Variants(op.variants, KeyShare), o, 0, 11);
  }

  lemma ShortRanked(op: Operation, o: Order)
    requires op.UpdateProduct? || op.RemovePriceList? || op.TakeSlot? || op.SettleRefund? || op.Collect?
    ensures Ranked(Program(op), o)
  {
    if op.Collect? {
      FrontRanked(op.bound, op.sale, o);
    }
  }

  /** The operation updates its counters, if it has any, where the order says. */
  predicate InOrder(op: Operation, o: Order) {
    match op
    case Charge(_, _, promotions, _, _, _) => promotions == [] || o == CountersFirst
    case ConfirmBot(_, _, _, promotions, _, _, _) => promotions == [] || o == CountersFirst
    case Cancel(_, promotions, _, _, _) => promotions == [] || o == CountersLast
    case _ => true
  }

  /** Key shares apart, every operation takes its locks in the rank order that fits where it updates its counters. */
  lemma ProgramsAreRanked(op: Operation, o: Order)
    requires SortedIds(op) && InOrder(op, o)
    ensures Ranked(Program(op), o)
  {
    match op
    case WriteVariant(_, _, _) => StockWriteRanked(op, o);
    case WriteLot(_, _, _) => StockWriteRanked(op, o);
    case CreatePriceList(_, _) => PriceListRanked(op, o);
    case Charge(_, _, _, _, _, _) => ChargeRanked(op, o);
    case ConfirmBot(_, _, _, _, _, _, _) => ConfirmRanked(op, o);
    case Cancel(_, _, _, _, _) => CancelRanked(op, o);
    case _ => ShortRanked(op, o);
  }

  // ----- Mixes of operations -----

  /** The sale a session-bound request shares before it locks it. */
  function BoundSale(op: Operation): Option<Id> {
    match op
    case Charge(bound, sale, _, _, _, _) => if bound.Some? then Some(sale) else None
    case Collect(bound, sale) => if bound.Some? then Some(sale) else None
    case _ => None
  }

  /** The products and variants an operation's inserted rows refer to, when it inserts them before it locks stock. */
  predicate RefersTo(op: Operation, r: Resource) {
    Lock(r, KeyShare) in Program(op) && (r.ProductRow? || r.VariantRow?)
  }

  predicate Takes(op: Operation, r: Resource) {
    Lock(r, Update) in Program(op)
  }

  ghost predicate Separate(x: Operation, y: Operation) {
    && (BoundSale(x).Some? ==> BoundSale(y) != BoundSale(x))
    && forall r :: RefersTo(x, r) ==> !Takes(y, r)
  }

  /** Counter updates all on one side of the stock locks, bound requests about different sales, and no row referred to by one
      operation locked by another. */
  ghost predicate Peaceful(ops: seq<Operation>, o: Order) {
    && (forall op :: op in ops ==> SortedIds(op) && InOrder(op, o))
    && forall i, j :: 0 <= i < |ops| && 0 <= j < |ops| && i != j ==> Separate(ops[i], ops[j])
  }

  /** Selling locks stock rows for update and nothing else so strongly. */
  lemma SellingModes(promotions: seq<Id>, products: seq<Id>, lots: seq<Id>, variants: seq<Id>)
    ensures forall l :: l in Selling(promotions, products, lots, variants) ==>
              l.mode != KeyShare && (l.mode == Update ==> l.resource.ProductRow? || l.resource.LotRow? || l.resource.VariantRow?)
  {
  }

  lemma CancelModes(promotions: seq<Id>, products: seq<Id>, lots: seq<Id>, variants: seq<Id>)
    ensures forall l :: l in Journal(products, lots, variants) + Counters(promotions) ==>
              l.mode != KeyShare && (l.mode == Update ==> l.resource.ProductRow? || l.resource.LotRow? || l.resource.VariantRow?)
  {
  }

  /** A lock of one part or of the other. */
  lemma InPart(a: seq<Lock>, b: seq<Lock>, u: nat)
    requires u < |a + b|
    ensures if u < |a| then (a + b)[u] == a[u] else (a + b)[u] in b
  {
  }

  /** What can be key-shared before the end of a program. */
  ghost predicate SharedEarly(op: Operation, l: Lock) {
    l.mode == KeyShare ==>
      || l.resource.ProductRow? || l.resource.VariantRow? || l.resource.CustomerRow?
      || (l.resource.SaleRow? && BoundSale(op) == Some(l.resource.id))
  }

  /** A sale or a customer is locked first of all, except by a bound request, which shares its sale before. */
  ghost predicate LockedFirst(op: Operation, l: Lock, w: nat) {
    l.mode == Update ==>
      && (l.resource.SaleRow? ==> w == 0 || BoundSale(op) == Some(l.resource.id))
      && (l.resource.CustomerRow? ==> w == 0)
  }

  lemma ChargeShape(op: Operation, u: nat)
    requires op.Charge? && u < |Program(op)|
    ensures SharedEarly(op, Program(op)[u]) && LockedFirst(op, Program(op)[u], u)
  {
    var selling := Selling(op.promotions, op.products, op.lots, op.variants);
    SellingModes(op.promotions, op.products, op.lots, op.variants);
    InPart(SaleFront(op.bound, op.sale), selling, u);
  }

  lemma ConfirmShape(op: Operation, u: nat)
    requires op.ConfirmBot? && u < |Program(op)|
    ensures SharedEarly(op, Program(op)[u]) && LockedFirst(op, Program(op)[u], u)
  {
    var selling := Selling(op.promotions, op.products, op.lots, op.variants);
    var front, refs := BotFront(op.customer, op.quote), Refs(op.cart);
    SellingModes(op.promotions, op.products, op.lots, op.variants);
    RefsShare(op.cart);
    InPart(front + refs, selling, u);
    if u < |front + refs| {
      InPart(front, refs, u);
    }
  }

  lemma CancelShape(op: Operation, u: nat)
    requires op.Cancel? && u < |Program(op)|
    ensures SharedEarly(op, Program(op)[u]) && LockedFirst(op, Program(op)[u], u)
  {
    CancelModes(op.promotions, op.products, op.lots, op.variants);
    InPart([Lock(SaleRow(op.sale), Update)], Journal(op.products, op.lots, op.variants) + Counters(op.promotions), u);
  }

  lemma WriteShape(op: Operation, u: nat)
    requires (op.WriteVariant? || op.WriteLot? || op.CreatePriceList?) && u < |Program(op)|
    ensures SharedEarly(op, Program(op)[u]) && LockedFirst(op, Program(op)[u], u)
  {
  }

  lemma Shape(op: Operation, u: nat)
    requires u < |Program(op)|
    ensures (u + 1 < |Program(op)| ==> SharedEarly(op, Program(op)[u])) && LockedFirst(op, Program(op)[u], u)
  {
    match op
    case Charge(_, _, _, _, _, _) => ChargeShape(op, u);
    case ConfirmBot(_, _, _, _, _, _, _) => ConfirmShape(op, u);
    case Cancel(_, _, _, _, _) => CancelShape(op, u);
    case WriteVariant(_, _, _) => WriteShape(op, u);
    case WriteLot(_, _, _) => WriteShape(op, u);
    case CreatePriceList(_, _) => WriteShape(op, u);
    case _ => ShortShape(op, u);
  }

  lemma ShortShape(op: Operation, u: nat)
    requires op.UpdateProduct? || op.RemovePriceList? || op.TakeSlot? || op.SettleRefund? || op.Collect?
    requires u < |Program(op)|
    ensures (u + 1 < |Program(op)| ==> SharedEarly(op, Program(op)[u])) && LockedFirst(op, Program(op)[u], u)
  {
  }

  lemma ShareHarmless(ops: seq<Operation>, o: Order, j: nat, u: nat)
    requires Peaceful(ops, o) && j < |ops| && u + 1 < |Program(ops[j])| && Program(ops[j])[u].mode == KeyShare
    ensures Harmless(Programs(ops), j, u)
  {
    var l := Program(ops[j])[u];
    Shape(ops[j], u);
    forall i, w | 0 <= i < |ops| && i != j && 0 <= w < |Program(ops[i])| && Conflict(l, Program(ops[i])[w])
      ensures w == 0
    {
      assert Separate(ops[j], ops[i]);
      Shape(ops[i], w);
      assert Program(ops[i])[w] == Lock(l.resource, Update);
      assert RefersTo(ops[j], l.resource) ==> !Takes(ops[i], l.resource);
    }
  }

  lemma PeacefulIsTame(ops: seq<Operation>, o: Order)
    requires Peaceful(ops, o)
    ensures Tame(Programs(ops), Rank(o))
  {
    forall j, u, v | 0 <= j < |ops| && 0 <= u < v < |Program(ops[j])|
      ensures Below(Rank(o)(Program(ops[j])[u].resource), Rank(o)(Program(ops[j])[v].resource)) || Harmless(Programs(ops), j, u)
    {
      assert ops[j] in ops;
      ProgramsAreRanked(ops[j], o);
      if Program(ops[j])[u].mode == KeyShare {
        ShareHarmless(ops, o, j, u);
      }
    }
  }

  /** A peaceful mix of any number of operations never deadlocks: whatever the schedule, when nothing can step any more
      everybody has committed, after exactly the work there was. */
  lemma PeacefulMixFinishes(ops: seq<Operation>, o: Order, schedule: seq<nat>, last: seq<Txn>)
    requires Peaceful(ops, o) && Follows(Started(Programs(ops)), schedule, last) && NoneCanStep(last)
    ensures AllCommitted(last) && |schedule| == Sum(Work(Started(Programs(ops))))
  {
    PeacefulIsTame(ops, o);
    TameNeverStuck(Programs(ops), Rank(o));
    assert !Stuck(last);
    FinishedIsWork(Started(Programs(ops)), schedule, last);
  }
}
