/** What the locks of a charge, a bot confirmation or a cancellation are, and where: src/sales/sales.service.ts,
src/sales/infrastructure/prisma-sale.repository.ts, src/promotions/infrastructure/prisma-promotion-usage.repository.ts and
src/inventory/infrastructure/stock-journal.writer.ts.
*/
module SaleLocks {
  import opened Common
  import opened Locks
  import opened Deadlocks
  import opened LockOrder

  /** Which product each lot and variant belongs to. */
  datatype Homes = Homes(lots: map<Id, Id>, variants: map<Id, Id>)

  predicate Sells(op: Operation) {
    op.Charge? || op.ConfirmBot?
  }

  /** The operations that lock stock through the journal on behalf of a sale. */
  predicate MovesStock(op: Operation) {
    Sells(op) || op.Cancel?
  }

  /** The journal locks the lots and variants of its products; a confirmation's journal locks the products of its cart. */
  ghost predicate Housed(op: Operation, homes: Homes)
    requires MovesStock(op)
  {
    && SortedIds(op)
    && (forall l :: l in op.lots ==> l in homes.lots && homes.lots[l] in op.products)
    && (forall v :: v in op.variants ==> v in homes.variants && homes.variants[v] in op.products)
    && (op.ConfirmBot? ==>
          && (forall k :: 0 <= k < |op.cart| ==> op.cart[k].product in op.products && LineHoused(op.cart[k], homes))
          && forall p :: p in op.products ==> exists k :: 0 <= k < |op.cart| && op.cart[k].product == p)
  }

  ghost predicate LineHoused(line: Line, homes: Homes) {
    line.variant.Some? ==> line.variant.value in homes.variants && homes.variants[line.variant.value] == line.product
  }

  predicate ShareCounter(x: Operation, y: Operation)
    requires MovesStock(x) && MovesStock(y)
  {
    exists id :: id in x.promotions && id in y.promotions
  }

  predicate ShareProduct(x: Operation, y: Operation)
    requires MovesStock(x) && MovesStock(y)
  {
    exists id :: id in x.products && id in y.products
  }

  // ----- Parts of a program -----

  /** What an operation takes before the stock journal. */
  function Before(op: Operation): seq<Lock>
    requires MovesStock(op)
  {
    match op
    case Charge(bound, sale, promotions, _, _, _) => SaleFront(bound, sale) + Counters(promotions)
    case ConfirmBot(customer, quote, cart, promotions, _, _, _) => (BotFront(customer, quote) + Refs(cart)) + Counters(promotions)
    case Cancel(sale, _, _, _, _) => [Lock(SaleRow(sale), Update)]
  }

  function Stock(op: Operation): seq<Lock>
    requires MovesStock(op)
  {
    Journal(op.products, op.lots, op.variants)
  }

  function After(op: Operation): seq<Lock>
    requires MovesStock(op)
  {
    if op.Cancel? then Counters(op.promotions) else [Lock(FolioRow, NoKeyUpdate)]
  }

  lemma Associated(a: seq<Lock>, b: seq<Lock>, c: seq<Lock>, d: seq<Lock>)
    ensures a + (b + (c + d)) == (a + b) + c + d && a + (c + d) == a + c + d
  {
  }

  lemma ProgramParts(op: Operation)
    requires MovesStock(op)
    ensures Program(op) == Before(op) + Stock(op) + After(op)
  {
    match op
    case Charge(bound, sale, promotions, _, _, _) => Associated(SaleFront(bound, sale), Counters(promotions), Stock(op), After(op));
    case ConfirmBot(customer, quote, cart, promotions, _, _, _) =>
      Associated(BotFront(customer, quote) + Refs(cart), Counters(promotions), Stock(op), After(op));
    case Cancel(sale, _, _, _, _) => Associated(Before(op), [], Stock(op), After(op));
  }

  predicate StockRow(r: Resource) {
    r.ProductRow? || r.LotRow? || r.VariantRow?
  }

  function StockSize(op: Operation): nat
    requires MovesStock(op)
  {
    |op.products| + |op.lots| + |op.variants|
  }

  function BeforeSize(op: Operation): nat
    requires MovesStock(op)
  {
    |Before(op)|
  }

  function Size(op: Operation): nat
    requires MovesStock(op)
  {
    BeforeSize(op) + StockSize(op) + if op.Cancel? then |op.promotions| else 1
  }

  /** The journal's lock number `y`. */
  function StockLock(op: Operation, y: nat): Lock
    requires MovesStock(op) && y < StockSize(op)
  {
    var p, l := |op.products|, |op.lots|;
    Lock(if y < p then ProductRow(op.products[y])
         else if y < p + l then LotRow(op.lots[y - p])
         else VariantRow(op.variants[y - p - l]), Update)
  }

  lemma InThree(a: seq<Lock>, b: seq<Lock>, c: seq<Lock>, x: nat)
    requires x < |a + b + c|
    ensures |a + b + c| == |a| + |b| + |c|
    ensures (a + b + c)[x] == if x < |a| then a[x] else if x < |a| + |b| then b[x - |a|] else c[x - |a| - |b|]
  {
  }

  lemma StockIs(op: Operation, y: nat)
    requires MovesStock(op) && y < StockSize(op)
    ensures |Stock(op)| == StockSize(op) && Stock(op)[y] == StockLock(op, y)
  {
  }

  lemma Sizes(op: Operation)
    requires MovesStock(op)
    ensures |Program(op)| == Size(op) && |Stock(op)| == StockSize(op)
  {
    ProgramParts(op);
  }

  lemma BeforeAt(op: Operation, x: nat)
    requires MovesStock(op) && x < BeforeSize(op)
    ensures x < |Program(op)| && Program(op)[x] == Before(op)[x]
  {
    ProgramParts(op);
    InThree(Before(op), Stock(op), After(op), x);
  }

  lemma StockAt(op: Operation, y: nat)
    requires MovesStock(op) && y < StockSize(op)
    ensures BeforeSize(op) + y < |Program(op)| && Program(op)[BeforeSize(op) + y] == StockLock(op, y)
  {
    ProgramParts(op);
    StockIs(op, y);
    InThree(Before(op), Stock(op), After(op), BeforeSize(op) + y);
  }

  lemma AfterAt(op: Operation, z: nat)
    requires MovesStock(op) && z < |After(op)|
    ensures BeforeSize(op) + StockSize(op) + z < |Program(op)|
    ensures Program(op)[BeforeSize(op) + StockSize(op) + z] == After(op)[z]
  {
    Sizes(op);
    ProgramParts(op);
    InThree(Before(op), Stock(op), After(op), BeforeSize(op) + StockSize(op) + z);
  }

  lemma ProductAt(op: Operation, p: Id) returns (x: nat)
    requires MovesStock(op) && p in op.products
    ensures BeforeSize(op) <= x < |Program(op)| && Program(op)[x] == Lock(ProductRow(p), Update)
    ensures x < BeforeSize(op) + |op.products|
  {
    var i :| 0 <= i < |op.products| && op.products[i] == p;
    x := BeforeSize(op) + i;
    StockAt(op, i);
  }

  /** A seller's counters are the last it takes before the stock. */
  lemma SellerCounter(op: Operation, i: nat)
    requires Sells(op) && i < |op.promotions|
    ensures |op.promotions| <= BeforeSize(op)
    ensures Before(op)[BeforeSize(op) - |op.promotions| + i] == Lock(PromotionRow(op.promotions[i]), NoKeyUpdate)
  {
  }

  lemma SellerCounterAt(op: Operation, id: Id) returns (x: nat)
    requires Sells(op) && id in op.promotions
    ensures x < BeforeSize(op) && x < |Program(op)| && Program(op)[x] == Lock(PromotionRow(id), NoKeyUpdate)
  {
    var i :| 0 <= i < |op.promotions| && op.promotions[i] == id;
    SellerCounter(op, i);
    x := BeforeSize(op) - |op.promotions| + i;
    BeforeAt(op, x);
  }

  lemma CancelCounterAt(op: Operation, id: Id) returns (x: nat)
    requires op.Cancel? && id in op.promotions
    ensures BeforeSize(op) + StockSize(op) <= x < |Program(op)| && Program(op)[x] == Lock(PromotionRow(id), NoKeyUpdate)
  {
    var i :| 0 <= i < |op.promotions| && op.promotions[i] == id;
    x := BeforeSize(op) + StockSize(op) + i;
    AfterAt(op, i);
  }

  // ----- What kind of locks there are -----

  /** Where a lock of the operation can come from. */
  ghost predicate Kind(op: Operation, homes: Homes, l: Lock)
    requires MovesStock(op)
  {
    match l.resource
    case ProductRow(p) => p in op.products && (l.mode == Update || (l.mode == KeyShare && op.ConfirmBot?))
    case LotRow(id) => l.mode == Update && id in homes.lots && homes.lots[id] in op.products
    case VariantRow(id) =>
      id in homes.variants && homes.variants[id] in op.products && (l.mode == Update || (l.mode == KeyShare && op.ConfirmBot?))
    case PromotionRow(id) => l.mode == NoKeyUpdate && id in op.promotions
    case FolioRow => l.mode == NoKeyUpdate && Sells(op)
    case SaleRow(id) => !op.ConfirmBot? && id == op.sale && (l.mode == Update || (l.mode == KeyShare && op.Charge?))
    case SlotRow(_) => op.Charge?
    case SessionRow(_) => op.Charge?
    case CustomerRow(id) => op.ConfirmBot? && id == op.customer && (l.mode == KeyShare || op.quote.Some?)
    case QuoteRow(id) => op.ConfirmBot? && op.quote == Some(id)
    case _ => false
  }

  /** The product a stock row is or belongs to. */
  function Home(r: Resource, homes: Homes): Option<Id> {
    match r
    case ProductRow(p) => Some(p)
    case LotRow(id) => if id in homes.lots then Some(homes.lots[id]) else None
    case VariantRow(id) => if id in homes.variants then Some(homes.variants[id]) else None
    case _ => None
  }

  /** Where the lines before line `k` end among the references, and the line each reference is of. */
  lemma {:induction false} RefOwner(cart: seq<Line>, homes: Homes, x: nat) returns (k: nat)
    requires x < |Refs(cart)| && forall l :: 0 <= l < |cart| ==> LineHoused(cart[l], homes)
    ensures k < |cart| && |Refs(cart[..k])| <= x && Home(Refs(cart)[x].resource, homes) == Some(cart[k].product)
    ensures Refs(cart)[x].mode == KeyShare && (Refs(cart)[x].resource.ProductRow? || Refs(cart)[x].resource.VariantRow?)
  {
    var n := |cart| - 1;
    if x < |Refs(cart[..n])| {
      k := RefOwner(cart[..n], homes, x);
      assert cart[..n][..k] == cart[..k];
    } else {
      k := n;
      assert LineHoused(cart[n], homes);
    }
  }

  /** A line refers to its product first. */
  lemma {:induction false} RefAt(cart: seq<Line>, k: nat)
    requires k < |cart|
    ensures |Refs(cart[..k])| < |Refs(cart)| && Refs(cart)[|Refs(cart[..k])|] == Lock(ProductRow(cart[k].product), KeyShare)
  {
    var n := |cart| - 1;
    if k < n {
      RefAt(cart[..n], k);
      assert cart[..n][..k] == cart[..k];
    }
  }

  lemma RefsGrow(cart: seq<Line>, k: nat, l: nat)
    requires k < l <= |cart|
    ensures |Refs(cart[..k])| < |Refs(cart[..l])|
  {
    RefAt(cart[..l], k);
    assert cart[..l][..k] == cart[..k];
  }

  function RefsEnd(op: Operation): nat
    requires op.ConfirmBot?
  {
    |BotFront(op.customer, op.quote)| + |Refs(op.cart)|
  }

  lemma ConfirmSizes(op: Operation)
    requires op.ConfirmBot?
    ensures RefsEnd(op) + |op.promotions| == BeforeSize(op)
  {
  }

  /** A confirmation's customer and quote, its references, its counters. */
  lemma ConfirmBeforeAt(op: Operation, x: nat)
    requires op.ConfirmBot? && x < BeforeSize(op)
    ensures RefsEnd(op) + |op.promotions| == BeforeSize(op)
    ensures var f := |BotFront(op.customer, op.quote)|;
            Before(op)[x] == if x < f then BotFront(op.customer, op.quote)[x]
                             else if x < RefsEnd(op) then Refs(op.cart)[x - f]
                             else Counters(op.promotions)[x - RefsEnd(op)]
  {
    InThree(BotFront(op.customer, op.quote), Refs(op.cart), Counters(op.promotions), x);
  }

  lemma FrontKind(op: Operation, homes: Homes, x: nat)
    requires op.ConfirmBot? && x < |BotFront(op.customer, op.quote)|
    ensures var l := BotFront(op.customer, op.quote)[x];
            Kind(op, homes, l) && (l.resource.CustomerRow? || l.resource.QuoteRow?)
  {
  }

  lemma RefKind(op: Operation, homes: Homes, x: nat)
    requires op.ConfirmBot? && Housed(op, homes) && x < |Refs(op.cart)|
    ensures var l := Refs(op.cart)[x];
            Kind(op, homes, l) && StockRow(l.resource) && l.mode == KeyShare
  {
    var k := RefOwner(op.cart, homes, x);
    assert op.cart[k].product in op.products;
  }

  ghost predicate ConfirmPlaced(op: Operation, homes: Homes, l: Lock, x: nat)
    requires op.ConfirmBot?
  {
    && Kind(op, homes, l)
    && (StockRow(l.resource) ==> l.mode == KeyShare && x < RefsEnd(op))
    && (l.resource.PromotionRow? ==> RefsEnd(op) <= x) && !l.resource.FolioRow?
  }

  lemma FrontPlaced(op: Operation, homes: Homes, x: nat)
    requires op.ConfirmBot? && x < |BotFront(op.customer, op.quote)|
    ensures ConfirmPlaced(op, homes, BotFront(op.customer, op.quote)[x], x)
  {
    FrontKind(op, homes, x);
  }

  lemma RefPlaced(op: Operation, homes: Homes, y: nat, x: nat)
    requires op.ConfirmBot? && Housed(op, homes) && y < |Refs(op.cart)| && x < RefsEnd(op)
    ensures ConfirmPlaced(op, homes, Refs(op.cart)[y], x)
  {
    RefKind(op, homes, y);
  }

  lemma CounterPlaced(op: Operation, homes: Homes, z: nat, x: nat)
    requires op.ConfirmBot? && z < |op.promotions| && RefsEnd(op) <= x
    ensures ConfirmPlaced(op, homes, Counters(op.promotions)[z], x)
  {
  }

  lemma ConfirmBeforeKind(op: Operation, homes: Homes, x: nat)
    requires op.ConfirmBot? && Housed(op, homes) && x < BeforeSize(op)
    ensures ConfirmPlaced(op, homes, Before(op)[x], x)
  {
    ConfirmBeforeAt(op, x);
    var f := |BotFront(op.customer, op.quote)|;
    if x < f {
      FrontPlaced(op, homes, x);
    } else if x < RefsEnd(op) {
      RefPlaced(op, homes, x - f, x);
    } else {
      CounterPlaced(op, homes, x - RefsEnd(op), x);
    }
  }

  lemma ChargeBeforeKind(op: Operation, homes: Homes, x: nat)
    requires op.Charge? && x < BeforeSize(op)
    ensures Kind(op, homes, Before(op)[x]) && !StockRow(Before(op)[x].resource)
  {
  }

  lemma BeforeKind(op: Operation, homes: Homes, x: nat)
    requires MovesStock(op) && Housed(op, homes) && x < BeforeSize(op)
    ensures Kind(op, homes, Before(op)[x]) && (StockRow(Before(op)[x].resource) ==> Before(op)[x].mode == KeyShare)
  {
    match op
    case ConfirmBot(_, _, _, _, _, _, _) => ConfirmBeforeKind(op, homes, x);
    case Charge(_, _, _, _, _, _) => ChargeBeforeKind(op, homes, x);
    case Cancel(_, _, _, _, _) =>
  }

  lemma StockKind(op: Operation, homes: Homes, y: nat)
    requires MovesStock(op) && Housed(op, homes) && y < StockSize(op)
    ensures Kind(op, homes, StockLock(op, y)) && StockRow(StockLock(op, y).resource)
  {
  }

  lemma AfterKind(op: Operation, homes: Homes, z: nat)
    requires MovesStock(op) && z < |After(op)|
    ensures Kind(op, homes, After(op)[z]) && !StockRow(After(op)[z].resource)
  {
  }

  /** Which part a lock is in follows from what it is. */
  ghost predicate Placed(op: Operation, homes: Homes, l: Lock, x: nat)
    requires MovesStock(op)
  {
    && Kind(op, homes, l)
    && (StockRow(l.resource) && l.mode == Update ==>
          BeforeSize(op) <= x < BeforeSize(op) + StockSize(op) && l == StockLock(op, x - BeforeSize(op)))
    && (StockRow(l.resource) && l.mode == KeyShare ==> x < BeforeSize(op))
  }

  lemma BeforePlaced(op: Operation, homes: Homes, x: nat)
    requires MovesStock(op) && Housed(op, homes) && x < BeforeSize(op)
    ensures x < |Program(op)| && Placed(op, homes, Program(op)[x], x)
  {
    BeforeAt(op, x);
    BeforeKind(op, homes, x);
  }

  lemma StockPlaced(op: Operation, homes: Homes, y: nat)
    requires MovesStock(op) && Housed(op, homes) && y < StockSize(op)
    ensures BeforeSize(op) + y < |Program(op)| && Placed(op, homes, Program(op)[BeforeSize(op) + y], BeforeSize(op) + y)
  {
    StockAt(op, y);
    StockKind(op, homes, y);
  }

  lemma AfterPlaced(op: Operation, homes: Homes, x: nat)
    requires MovesStock(op) && BeforeSize(op) + StockSize(op) <= x < |Program(op)|
    ensures Placed(op, homes, Program(op)[x], x)
  {
    var z := x - BeforeSize(op) - StockSize(op);
    Sizes(op);
    AfterAt(op, z);
    AfterKind(op, homes, z);
  }

  lemma KindAt(op: Operation, homes: Homes, x: nat)
    requires MovesStock(op) && Housed(op, homes) && x < |Program(op)|
    ensures Placed(op, homes, Program(op)[x], x)
  {
    if x < BeforeSize(op) {
      BeforePlaced(op, homes, x);
    } else if x < BeforeSize(op) + StockSize(op) {
      StockPlaced(op, homes, x - BeforeSize(op));
    } else {
      AfterPlaced(op, homes, x);
    }
  }

  function OrderOf(op: Operation): Order {
    if op.Cancel? then CountersLast else CountersFirst
  }

  /** Of two locks that are not key shares the lower one is taken first. */
  lemma InRank(op: Operation, x: nat, y: nat)
    requires MovesStock(op) && SortedIds(op) && x < y < |Program(op)| && Program(op)[x].mode != KeyShare
    ensures Below(Rank(OrderOf(op))(Program(op)[x].resource), Rank(OrderOf(op))(Program(op)[y].resource))
  {
    ProgramsAreRanked(op, OrderOf(op));
  }

  /** What is known of two locks from the order in which an operation takes them. */
  ghost predicate Ordered(op: Operation, homes: Homes, early: Lock, late: Lock)
    requires MovesStock(op)
  {
    && Kind(op, homes, early) && Kind(op, homes, late)
    && (early.mode != KeyShare ==> Below(Rank(OrderOf(op))(early.resource), Rank(OrderOf(op))(late.resource)))
    && !late.resource.CustomerRow?
    && (late.resource.QuoteRow? ==> early.resource.CustomerRow?)
    && (early.resource.PromotionRow? && StockRow(late.resource) ==> late.mode == Update)
  }

  /** A confirmation refers to nothing more once it has updated a counter. */
  lemma CounterThenLocks(op: Operation, homes: Homes, x: nat, y: nat)
    requires MovesStock(op) && Housed(op, homes) && x < y < |Program(op)|
    requires Program(op)[x].resource.PromotionRow? && StockRow(Program(op)[y].resource)
    ensures Program(op)[y].mode == Update
  {
    KindAt(op, homes, y);
    if Program(op)[y].mode == KeyShare {
      BeforeAt(op, x);
      BeforeAt(op, y);
      ConfirmBeforeKind(op, homes, x);
      ConfirmBeforeKind(op, homes, y);
    }
  }

  lemma LateInConfirm(op: Operation, homes: Homes, x: nat)
    requires op.ConfirmBot? && Housed(op, homes) && x < |Program(op)|
    requires Program(op)[x].resource.CustomerRow? || Program(op)[x].resource.QuoteRow?
    ensures if Program(op)[x].resource.CustomerRow? then x == 0 else x == 1
  {
    KindAt(op, homes, x);
    if x < BeforeSize(op) {
      BeforeAt(op, x);
      LateInFront(op, homes, x);
    } else {
      NotInFront(op, x);
    }
  }

  lemma LateInFront(op: Operation, homes: Homes, x: nat)
    requires op.ConfirmBot? && Housed(op, homes) && x < BeforeSize(op)
    requires Before(op)[x].resource.CustomerRow? || Before(op)[x].resource.QuoteRow?
    ensures if Before(op)[x].resource.CustomerRow? then x == 0 else x == 1
  {
    ConfirmBeforeAt(op, x);
    var f := |BotFront(op.customer, op.quote)|;
    if f <= x < RefsEnd(op) {
      RefKind(op, homes, x - f);
    }
  }

  lemma NotInFront(op: Operation, x: nat)
    requires op.ConfirmBot? && BeforeSize(op) <= x < |Program(op)|
    ensures !Program(op)[x].resource.CustomerRow? && !Program(op)[x].resource.QuoteRow?
  {
    Sizes(op);
    if x < BeforeSize(op) + StockSize(op) {
      StockAt(op, x - BeforeSize(op));
    } else {
      AfterAt(op, x - BeforeSize(op) - StockSize(op));
    }
  }

  lemma CustomerFirst(op: Operation)
    requires op.ConfirmBot?
    ensures |Program(op)| > 0 && Program(op)[0].resource == CustomerRow(op.customer)
    ensures Program(op)[0].mode == if op.quote.Some? then Update else KeyShare
  {
  }

  lemma InOrderAt(op: Operation, homes: Homes, x: nat, y: nat)
    requires MovesStock(op) && Housed(op, homes) && x < y < |Program(op)|
    ensures Ordered(op, homes, Program(op)[x], Program(op)[y])
  {
    KindAt(op, homes, x);
    KindAt(op, homes, y);
    if Program(op)[x].mode != KeyShare {
      InRank(op, x, y);
    }
    if Program(op)[x].resource.PromotionRow? && StockRow(Program(op)[y].resource) {
      CounterThenLocks(op, homes, x, y);
    }
    if op.ConfirmBot? && (Program(op)[y].resource.CustomerRow? || Program(op)[y].resource.QuoteRow?) {
      LateInConfirm(op, homes, y);
      CustomerFirst(op);
    }
  }
}
